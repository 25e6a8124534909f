/**
 * The application launcher: the de-duplicated application list built at
 * startup, the substring search that shows at most eight matches, and the
 * keyboard handling that moves the selection with wrap-around and launches
 * the selected application.
 */
module Launcher {
  import opened Wrappers
  import opened CInt
  import opened Sequences
  import opened Text

  const DEFAULT_ICON: string := "application-x-executable"

  /** Rows shown for one query. */
  const MAX_RESULTS: nat := 8

  /** `g_app_info_get_icon` and, when there is an icon, `g_icon_to_string` of it. */
  datatype IconInfo = NoIcon | Icon(serialized: Option<string>)

  /** What `load_apps` reads from one `GAppInfo` returned by `g_app_info_get_all`. */
  datatype AppInfo = AppInfo(shouldShow: bool, id: Option<string>, displayName: Option<string>, icon: IconInfo)

  /** `AppEntry`; `exec` holds the desktop-file id. */
  datatype AppEntry = AppEntry(name: string, nameLower: string, exec: string, icon: string)

  /** A shown application that has an id. */
  predicate Listed(info: AppInfo)
  {
    info.shouldShow && info.id.Some?
  }

  /** The entry `load_apps` builds for an application. */
  function MakeEntry(info: AppInfo): (e: AppEntry)
    requires info.id.Some?
    ensures e.exec == info.id.value
    ensures info.displayName.Some? ==> e.name == info.displayName.value
    ensures info.displayName.None? ==> e.name == info.id.value
    ensures |e.nameLower| == |e.name| && forall i :: 0 <= i < |e.name| ==> e.nameLower[i] == LowerChar(e.name[i])
    ensures info.icon.Icon? && info.icon.serialized.Some? ==> e.icon == info.icon.serialized.value
    ensures info.icon.NoIcon? || info.icon.serialized.None? ==> e.icon == DEFAULT_ICON
  {
    var name := if info.displayName.Some? then info.displayName.value else info.id.value;
    var icon := if info.icon.Icon? && info.icon.serialized.Some? then info.icon.serialized.value else DEFAULT_ICON;
    AppEntry(name, Lower(name), info.id.value, icon)
  }

  function Ids(es: seq<AppEntry>): set<string>
  {
    set e | e in es :: e.exec
  }

  /** The list `load_apps` leaves in `all_apps`, in the order the applications were enumerated. */
  function Loaded(apps: seq<AppInfo>): seq<AppEntry>
  {
    if apps == [] then []
    else
      var prev := Loaded(apps[..|apps| - 1]);
      var info := apps[|apps| - 1];
      if Listed(info) && info.id.value !in Ids(prev) then prev + [MakeEntry(info)] else prev
  }

  lemma IdsAppend(es: seq<AppEntry>, e: AppEntry)
    ensures Ids(es + [e]) == Ids(es) + {e.exec}
  {
  }

  /** `apps[k]` is listed and no earlier listed application has its id. */
  predicate FirstWithId(apps: seq<AppInfo>, k: int)
  {
    0 <= k < |apps| && Listed(apps[k])
    && forall j :: 0 <= j < k && Listed(apps[j]) ==> apps[j].id != apps[k].id
  }

  lemma LoadedStep(apps: seq<AppInfo>, i: nat)
    requires i < |apps|
    ensures var prev := Loaded(apps[..i]);
      Loaded(apps[..i + 1]) ==
        if Listed(apps[i]) && apps[i].id.value !in Ids(prev) then prev + [MakeEntry(apps[i])] else prev
  {
    assert apps[..i + 1][..i] == apps[..i];
  }

  /** No two entries share an id. */
  predicate DistinctIds(es: seq<AppEntry>)
  {
    forall i, j :: 0 <= i < j < |es| ==> es[i].exec != es[j].exec
  }

  /** No two loaded entries share an id. */
  lemma {:induction false} LoadedDistinct(apps: seq<AppInfo>)
    ensures DistinctIds(Loaded(apps))
  {
    if apps != [] {
      var prev := Loaded(apps[..|apps| - 1]);
      LoadedDistinct(apps[..|apps| - 1]);
      var r := Loaded(apps);
      var info := apps[|apps| - 1];
      if Listed(info) && info.id.value !in Ids(prev) {
        var e := MakeEntry(info);
        assert r == prev + [e];
        forall i, j | 0 <= i < j < |r|
          ensures r[i].exec != r[j].exec
        {
          assert r[i] == prev[i];
          if j == |prev| {
            assert prev[i] in prev;
            assert prev[i].exec in Ids(prev);
            assert r[j].exec == info.id.value;
          } else {
            assert r[j] == prev[j];
          }
        }
      } else {
        assert r == prev;
      }
    }
  }

  /** Every listed application's id is loaded. */
  lemma LoadedComplete(apps: seq<AppInfo>)
    ensures forall k :: 0 <= k < |apps| && Listed(apps[k]) ==> apps[k].id.value in Ids(Loaded(apps))
  {
    forall k | 0 <= k < |apps| && Listed(apps[k])
      ensures apps[k].id.value in Ids(Loaded(apps))
    {
      LoadedHasId(apps, k);
    }
  }

  lemma {:induction false} LoadedHasId(apps: seq<AppInfo>, k: nat)
    requires k < |apps| && Listed(apps[k])
    ensures apps[k].id.value in Ids(Loaded(apps))
  {
    LoadedIdsGrow(apps);
    if k < |apps| - 1 {
      var init := apps[..|apps| - 1];
      assert init[k] == apps[k];
      LoadedHasId(init, k);
    }
  }

  /** One more application keeps every id loaded so far and adds its own id if it is listed. */
  lemma LoadedIdsGrow(apps: seq<AppInfo>)
    requires apps != []
    ensures Ids(Loaded(apps[..|apps| - 1])) <= Ids(Loaded(apps))
    ensures Listed(apps[|apps| - 1]) ==> apps[|apps| - 1].id.value in Ids(Loaded(apps))
  {
    var prev := Loaded(apps[..|apps| - 1]);
    var info := apps[|apps| - 1];
    if Listed(info) && info.id.value !in Ids(prev) {
      IdsAppend(prev, MakeEntry(info));
    }
  }

  /**
   * Every loaded entry is the one built from the first listed application
   * with its id: later duplicates, hidden applications and applications
   * without an id contribute nothing.
   */
  lemma {:induction false} LoadedKeepsFirst(apps: seq<AppInfo>)
    ensures forall e :: e in Loaded(apps) ==> exists k :: FirstWithId(apps, k) && e == MakeEntry(apps[k])
  {
    if apps != [] {
      var n := |apps| - 1;
      var init := apps[..n];
      LoadedKeepsFirst(init);
      LoadedComplete(init);
      forall e | e in Loaded(apps)
        ensures exists k :: FirstWithId(apps, k) && e == MakeEntry(apps[k])
      {
        if e in Loaded(init) {
          var k :| FirstWithId(init, k) && e == MakeEntry(init[k]);
          assert forall j :: 0 <= j <= k ==> init[j] == apps[j];
          assert FirstWithId(apps, k);
        } else {
          assert e == MakeEntry(apps[n]);
          assert forall j :: 0 <= j < n ==> init[j] == apps[j];
          assert FirstWithId(apps, n);
        }
      }
    }
  }

  /** Loading one more application keeps the entries already loaded. */
  lemma LoadedGrows(apps: seq<AppInfo>)
    requires apps != []
    ensures Loaded(apps[..|apps| - 1]) <= Loaded(apps)
  {
  }

  /** Loading is incremental: the entries of a prefix of the input come first, in the same order. */
  lemma {:induction false} LoadedInOrder(apps: seq<AppInfo>, i: nat)
    requires i <= |apps|
    ensures Loaded(apps[..i]) <= Loaded(apps)
    decreases |apps| - i
  {
    if i < |apps| {
      LoadedInOrder(apps, i + 1);
      var next := apps[..i + 1];
      LoadedGrows(next);
      assert next[..|next| - 1] == apps[..i];
    } else {
      assert apps[..i] == apps;
    }
  }

  /** The entries of `apps`, in order, whose lower-cased name contains `q`. */
  function Matches(apps: seq<AppEntry>, q: string): (r: seq<AppEntry>)
    ensures |r| <= |apps|
  {
    if apps == [] then []
    else
      var e := apps[|apps| - 1];
      Matches(apps[..|apps| - 1], q) + (if IsSubstring(q, e.nameLower) then [e] else [])
  }

  /** The matches are exactly the entries whose lower-cased name contains `q`. */
  lemma {:induction false} MatchesMembers(apps: seq<AppEntry>, q: string)
    ensures forall e :: e in Matches(apps, q) <==> e in apps && IsSubstring(q, e.nameLower)
  {
    if apps != [] {
      var e := apps[|apps| - 1];
      assert apps == apps[..|apps| - 1] + [e];
      MatchesMembers(apps[..|apps| - 1], q);
    }
  }

  lemma MatchesStep(apps: seq<AppEntry>, q: string, i: nat)
    requires i < |apps|
    ensures Matches(apps[..i + 1], q) ==
      Matches(apps[..i], q) + (if IsSubstring(q, apps[i].nameLower) then [apps[i]] else [])
  {
    assert apps[..i + 1][..i] == apps[..i];
  }

  lemma {:induction false} MatchesInOrder(apps: seq<AppEntry>, q: string, i: nat)
    requires i <= |apps|
    ensures Matches(apps[..i], q) <= Matches(apps, q)
    decreases |apps| - i
  {
    if i < |apps| {
      MatchesStep(apps, q, i);
      MatchesInOrder(apps, q, i + 1);
    } else {
      assert apps[..i] == apps;
    }
  }

  /**
   * The rows `on_search_changed` shows: none for an empty query, otherwise
   * the first eight entries, in list order, whose lower-cased name contains
   * the lower-cased query; every match is shown when there are fewer.
   */
  function SearchResults(apps: seq<AppEntry>, query: string): (r: seq<AppEntry>)
    ensures |r| <= MAX_RESULTS
    ensures |query| == 0 ==> r == []
    ensures |query| > 0 ==> r <= Matches(apps, Lower(query))
    ensures forall e :: e in r ==> e in apps && IsSubstring(Lower(query), e.nameLower)
    ensures |query| > 0 && |r| < MAX_RESULTS ==>
      forall e :: e in apps && IsSubstring(Lower(query), e.nameLower) ==> e in r
  {
    MatchesMembers(apps, Lower(query));
    if |query| == 0 then [] else Capped(Matches(apps, Lower(query)), MAX_RESULTS)
  }

  /** Down: the next row, wrapping from the last to the first. */
  function NextIndex(sel: int, count: int): (r: int)
    requires count > 0
    ensures -1 <= sel < count ==> 0 <= r < count
    ensures -1 <= sel < count - 1 ==> r == sel + 1
    ensures sel == count - 1 ==> r == 0
  {
    Rem(sel + 1, count)
  }

  /** Up: the previous row, wrapping from the first to the last. */
  function PrevIndex(sel: int, count: int): (r: int)
    requires count > 0
    ensures -1 <= sel < count ==> 0 <= r < count
    ensures 0 < sel < count ==> r == sel - 1
    ensures sel == 0 ==> r == count - 1
    ensures sel == -1 && count > 1 ==> r == count - 2
  {
    Rem(sel - 1 + count, count)
  }

  /** Up undoes Down and Down undoes Up on a selected row. */
  lemma NextPrevInverse(sel: int, count: int)
    requires 0 <= sel < count
    ensures PrevIndex(NextIndex(sel, count), count) == sel
    ensures NextIndex(PrevIndex(sel, count), count) == sel
  {
  }

  /** Return: the selected row if the index is in range, otherwise the first row, if there is one. */
  function ReturnTarget(sel: int, count: nat): (r: Option<nat>)
    ensures r.Some? <==> count > 0
    ensures r.Some? ==> r.value < count
    ensures 0 <= sel < count ==> r == Some(sel)
    ensures count > 0 && !(0 <= sel < count) ==> r == Some(0)
  {
    if 0 <= sel < count then Some(sel) else if count > 0 then Some(0) else None
  }

  /** Prepending the next entry to the reversed entries so far gives the reversal with that entry added. */
  lemma PrependReversed(loaded: seq<AppEntry>, e: AppEntry, init: seq<AppEntry>)
    ensures [e] + (Reverse(loaded) + init) == Reverse(loaded + [e]) + init
  {
    ReversePush(loaded, e);
    assert [e] + (Reverse(loaded) + init) == ([e] + Reverse(loaded)) + init;
  }

  /**
   * The loop of `load_apps`: each new entry is prepended to `init`, and the
   * set `seen` plays the hash set of ids already taken.
   */
  method PrependLoaded(apps: seq<AppInfo>, init: seq<AppEntry>) returns (list: seq<AppEntry>)
    ensures list == Reverse(Loaded(apps)) + init
  {
    var seen: set<string> := {};
    list := init;
    ghost var loaded: seq<AppEntry> := [];
    var i := 0;
    while i < |apps|
      invariant 0 <= i <= |apps|
      invariant loaded == Loaded(apps[..i])
      invariant seen == Ids(loaded)
      invariant list == Reverse(loaded) + init
    {
      var info := apps[i];
      LoadedStep(apps, i);
      assert Listed(info) == (info.shouldShow && info.id.Some?);
      if info.shouldShow && info.id.Some? && info.id.value !in seen {
        var e := MakeEntry(info);
        IdsAppend(loaded, e);
        PrependReversed(loaded, e, init);
        seen := seen + {info.id.value};
        list := [e] + list;
        loaded := loaded + [e];
      }
      i := i + 1;
    }
    assert apps[..i] == apps;
    return list;
  }

  /**
   * The loop of `on_search_changed`: walk the list, keeping the entries
   * whose lower-cased name contains `queryLower`, and stop at the eighth.
   */
  method MatchRows(apps: seq<AppEntry>, queryLower: string) returns (rows: seq<AppEntry>)
    ensures rows == Capped(Matches(apps, queryLower), MAX_RESULTS)
  {
    rows := [];
    var count := 0;
    var i := 0;
    while i < |apps| && count < MAX_RESULTS
      invariant 0 <= i <= |apps|
      invariant rows == Matches(apps[..i], queryLower)
      invariant count == |rows| <= MAX_RESULTS
    {
      var e := apps[i];
      MatchesStep(apps, queryLower, i);
      if IsSubstring(queryLower, e.nameLower) {
        rows := rows + [e];
        count := count + 1;
      }
      i := i + 1;
    }
    MatchesInOrder(apps, queryLower, i);
    if i == |apps| {
      assert apps[..i] == apps;
    } else {
      assert Matches(apps, queryLower)[..MAX_RESULTS] == rows;
    }
  }

  datatype Key = Escape | Down | Up | Return | OtherKey

  class Launcher {
    /** `all_apps`. */
    var allApps: seq<AppEntry>
    /** The rows of `results_box`, top to bottom. */
    var results: seq<AppEntry>
    /** `selected_index`. */
    var selectedIndex: int
    /** Application ids passed to `g_desktop_app_info_new` by `launch_result`, in order. */
    var launched: seq<string>
    /** Set by `gtk_main_quit`. */
    var quit: bool

    /** The selection is a shown row or -1. */
    ghost predicate Valid()
      reads this
    {
      -1 <= selectedIndex < |results|
    }

    /** A row is selected exactly when rows are shown. */
    ghost predicate SelectionShown()
      reads this
    {
      selectedIndex == -1 <==> |results| == 0
    }

    /** State of `main` before `load_apps`. */
    constructor ()
      ensures Valid()
      ensures allApps == [] && results == [] && selectedIndex == -1 && launched == [] && !quit
    {
      allApps := [];
      results := [];
      selectedIndex := -1;
      launched := [];
      quit := false;
    }

    /**
     * `load_apps`: each new entry is prepended to `all_apps`, which is then
     * reversed; `seen` plays the hash set of ids.
     */
    method LoadApps(apps: seq<AppInfo>)
      requires Valid()
      modifies this
      ensures Valid()
      ensures allApps == Reverse(old(allApps)) + Loaded(apps)
      ensures results == old(results) && selectedIndex == old(selectedIndex)
      ensures launched == old(launched) && quit == old(quit)
    {
      var list := PrependLoaded(apps, allApps);
      ReversePrepended(Loaded(apps), allApps);
      allApps := Reverse(list);
    }

    /** `on_search_changed`: rebuild the rows for the new query and select the first, if any. */
    method OnSearchChanged(query: string)
      requires Valid()
      modifies this
      ensures Valid()
      ensures results == SearchResults(allApps, query)
      ensures selectedIndex == if |results| > 0 then 0 else -1
      ensures SelectionShown()
      ensures allApps == old(allApps) && launched == old(launched) && quit == old(quit)
    {
      results := [];
      selectedIndex := -1;
      if |query| == 0 {
        return;
      }
      results := MatchRows(allApps, Lower(query));
      var count := |results|;
      if count > 0 {
        selectedIndex := 0;
      }
    }

    /** `launch_result`: ask for the application to be launched, then leave the main loop. */
    method LaunchResult(row: nat)
      requires Valid() && row < |results|
      modifies this
      ensures Valid()
      ensures allApps == old(allApps) && results == old(results) && selectedIndex == old(selectedIndex)
      ensures launched == old(launched) + [results[row].exec] && quit
    {
      launched := launched + [results[row].exec];
      quit := true;
    }

    /**
     * `on_key_press`: Escape quits; Down / Up move the selection with
     * wrap-around when there are rows; Return launches the target row. The
     * result says whether the key was consumed.
     */
    method OnKeyPress(key: Key) returns (handled: bool)
      requires Valid()
      modifies this
      ensures Valid()
      ensures allApps == old(allApps) && results == old(results)
      ensures old(SelectionShown()) ==> SelectionShown()
      ensures key == Escape ==>
        handled && quit && selectedIndex == old(selectedIndex) && launched == old(launched)
      ensures key == Down ==>
        && handled == (|results| > 0)
        && selectedIndex == (if |results| > 0 then NextIndex(old(selectedIndex), |results|) else old(selectedIndex))
        && launched == old(launched) && quit == old(quit)
      ensures key == Up ==>
        && handled == (|results| > 0)
        && selectedIndex == (if |results| > 0 then PrevIndex(old(selectedIndex), |results|) else old(selectedIndex))
        && launched == old(launched) && quit == old(quit)
      ensures key == Return ==>
        && handled && selectedIndex == old(selectedIndex)
        && match ReturnTarget(old(selectedIndex), |results|)
           case Some(row) => launched == old(launched) + [results[row].exec] && quit
           case None => launched == old(launched) && quit == old(quit)
      ensures key == OtherKey ==>
        !handled && selectedIndex == old(selectedIndex) && launched == old(launched) && quit == old(quit)
    {
      if key == Escape {
        quit := true;
        return true;
      }
      var count := |results|;
      if key == Down && count > 0 {
        selectedIndex := NextIndex(selectedIndex, count);
        return true;
      }
      if key == Up && count > 0 {
        selectedIndex := PrevIndex(selectedIndex, count);
        return true;
      }
      if key == Return {
        if 0 <= selectedIndex < count {
          LaunchResult(selectedIndex);
        } else if count > 0 {
          LaunchResult(0);
        }
        return true;
      }
      return false;
    }
  }
}

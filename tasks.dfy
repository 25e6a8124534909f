/**
 * The task viewer: which `/proc` entries become rows, how a row's name and
 * process id are derived from the entry, and the guard that keeps the kill
 * button away from `init`.
 */
module Tasks {
  import opened Wrappers
  import opened Sequences

  /** `sizeof(name)`: `fgets` stores at most one character less. */
  const NAME_BUF: nat := 256

  const UNKNOWN_NAME: string := "(unknown)"

  /** `g_ascii_isdigit`. */
  predicate IsDigit(c: char)
  {
    '0' <= c <= '9'
  }

  /** A process directory name: present, non-empty and made of ASCII digits only. */
  predicate NumericName(name: Option<string>)
  {
    name.Some? && |name.value| > 0 && forall i :: 0 <= i < |name.value| ==> IsDigit(name.value[i])
  }

  /** `is_numeric_name`: false for a missing or empty name, then a scan that stops at the first non-digit. */
  method IsNumericName(name: Option<string>) returns (ok: bool)
    ensures ok <==> NumericName(name)
  {
    if name.None? || |name.value| == 0 {
      return false;
    }
    var s := name.value;
    var i := 0;
    while i < |s|
      invariant 0 <= i <= |s|
      invariant forall j :: 0 <= j < i ==> IsDigit(s[j])
    {
      if !IsDigit(s[i]) {
        return false;
      }
      i := i + 1;
    }
    return true;
  }

  /** The value of a digit string, most significant digit first; `atoi` on a numeric name. */
  function DecimalValue(s: string): (n: nat)
    requires forall i :: 0 <= i < |s| ==> IsDigit(s[i])
  {
    if s == [] then 0
    else
      assert IsDigit(s[|s| - 1]);
      10 * DecimalValue(s[..|s| - 1]) + (s[|s| - 1] as int - '0' as int)
  }

  /** The decimal representation of `n`, without leading zeros. */
  function DecimalString(n: nat): (s: string)
    ensures |s| > 0
    ensures forall i :: 0 <= i < |s| ==> IsDigit(s[i])
    ensures |s| > 1 ==> s[0] != '0'
  {
    var d := ('0' as int + n % 10) as char;
    if n < 10 then [d] else DecimalString(n / 10) + [d]
  }

  /** Reading back the decimal representation of a process id gives the id. */
  lemma {:induction false} DecimalRoundTrip(n: nat)
    ensures DecimalValue(DecimalString(n)) == n
  {
    var s := DecimalString(n);
    if n >= 10 {
      DecimalRoundTrip(n / 10);
      assert s[..|s| - 1] == DecimalString(n / 10);
    }
  }

  /** Leading zeros do not change the value. */
  lemma {:induction false} DecimalLeadingZero(s: string)
    requires forall i :: 0 <= i < |s| ==> IsDigit(s[i])
    ensures DecimalValue("0" + s) == DecimalValue(s)
  {
    if s != [] {
      var t := "0" + s;
      assert t[..|t| - 1] == "0" + s[..|s| - 1];
      DecimalLeadingZero(s[..|s| - 1]);
    }
  }

  /** The index of the first newline in `s`, or `|s|` if there is none. */
  function FirstNewline(s: string): (k: nat)
    ensures k <= |s|
    ensures '\n' !in s[..k]
    ensures k < |s| ==> s[k] == '\n'
  {
    if s == [] then 0
    else if s[0] == '\n' then 0
    else
      var k := 1 + FirstNewline(s[1..]);
      assert s[..k] == [s[0]] + s[1..][..k - 1];
      k
  }

  /**
   * `fgets(name, sizeof name, f)` on a file holding `content`: nothing for an
   * empty file, otherwise the characters up to and including the first
   * newline, at most 255 of them.
   */
  function ReadLine(content: string): (line: Option<string>)
    ensures content == [] <==> line.None?
    ensures line.Some? ==> 0 < |line.value| < NAME_BUF && line.value <= content
    ensures line.Some? ==> '\n' !in line.value[..|line.value| - 1]
    ensures line.Some? ==>
      line.value == content || |line.value| == NAME_BUF - 1 || line.value[|line.value| - 1] == '\n'
  {
    if content == [] then None
    else
      var k := FirstNewline(content);
      var upto := if k < |content| then content[..k + 1] else content;
      var line := Capped(upto, NAME_BUF - 1);
      assert line <= upto;
      assert line[..|line| - 1] <= content[..k];
      Some(line)
  }

  /** `name[strcspn(name, "\n")] = '\0'` and reading `name` as a C string: cut at the first newline or NUL. */
  function CutName(line: string): (name: string)
    ensures name <= line
    ensures '\n' !in name && '\0' !in name
    ensures |name| < |line| ==> line[|name|] == '\n' || line[|name|] == '\0'
  {
    if line == [] || line[0] == '\n' || line[0] == '\0' then []
    else [line[0]] + CutName(line[1..])
  }

  /** The name column: the cut name, or "(unknown)" when it is empty. */
  function DisplayName(name: string): (r: string)
    ensures |r| > 0
    ensures name != [] ==> r == name
    ensures name == [] ==> r == UNKNOWN_NAME
  {
    if name == [] then UNKNOWN_NAME else name
  }

  /**
   * `n` is what the name column shows for a `comm` file holding `c` whose
   * first character is neither a newline nor NUL: `c` up to its first newline
   * or NUL, its 255th character or its end, whichever comes first.
   */
  predicate CommName(c: string, n: string)
  {
    n <= c && |n| < NAME_BUF && '\n' !in n && '\0' !in n
    && (|n| == |c| || |n| == NAME_BUF - 1 || c[|n|] == '\n' || c[|n|] == '\0')
  }

  /** Cutting the line `fgets` read gives the prefix of the file that `CommName` describes. */
  lemma CutLineIsCommName(c: string)
    requires c != []
    ensures CommName(c, CutName(ReadLine(c).value))
  {
    var line := ReadLine(c).value;
    var n := CutName(line);
    if |n| == |line| {
      assert n == line;
      assert line[|line| - 1] in n;
    } else {
      assert c[|n|] == line[|n|];
    }
  }

  /** One entry of `/proc`: its name and, if `comm` could be opened, that file's contents. */
  datatype ProcEntry = ProcEntry(dname: string, comm: Option<string>)

  /** A row of the process list: the id as text, the name shown, the id as a number. */
  datatype Row = Row(pidText: string, name: string, pid: int)

  /** The row for an entry, if it gets one: a numeric name whose `comm` opens and yields a line. */
  function RowFor(e: ProcEntry): (r: Option<Row>)
    ensures r.Some? <==> NumericName(Some(e.dname)) && e.comm.Some? && e.comm.value != []
    ensures r.Some? ==> r.value.pidText == e.dname && r.value.name != [] && '\n' !in r.value.name
    ensures r.Some? ==> r.value.pid == DecimalValue(e.dname)
    ensures r.Some? && (e.comm.value[0] == '\n' || e.comm.value[0] == '\0') ==> r.value.name == UNKNOWN_NAME
    ensures r.Some? && e.comm.value[0] != '\n' && e.comm.value[0] != '\0' ==> CommName(e.comm.value, r.value.name)
  {
    if !NumericName(Some(e.dname)) || e.comm.None? then None
    else match ReadLine(e.comm.value)
      case None => None
      case Some(line) =>
        CutLineIsCommName(e.comm.value);
        Some(Row(e.dname, DisplayName(CutName(line)), DecimalValue(e.dname)))
  }

  /** The rows `refresh_processes` appends, in directory order. */
  function Rows(entries: seq<ProcEntry>): (rows: seq<Row>)
    ensures |rows| <= |entries|
  {
    if entries == [] then []
    else
      var last := RowFor(entries[|entries| - 1]);
      Rows(entries[..|entries| - 1]) + (if last.Some? then [last.value] else [])
  }

  lemma RowsStep(entries: seq<ProcEntry>, i: nat)
    requires i < |entries|
    ensures var r := RowFor(entries[i]);
      Rows(entries[..i + 1]) == Rows(entries[..i]) + (if r.Some? then [r.value] else [])
  {
    assert entries[..i + 1][..i] == entries[..i];
  }

  /** Every row comes from a process directory and carries that directory's id. */
  lemma {:induction false} RowsAreProcesses(entries: seq<ProcEntry>)
    ensures forall r :: r in Rows(entries) ==>
      exists e :: e in entries && NumericName(Some(e.dname)) && r.pidText == e.dname && r.pid == DecimalValue(e.dname)
  {
    if entries != [] {
      var init := entries[..|entries| - 1];
      RowsAreProcesses(init);
      forall r | r in Rows(entries)
        ensures exists e :: e in entries && NumericName(Some(e.dname)) && r.pidText == e.dname && r.pid == DecimalValue(e.dname)
      {
        if r in Rows(init) {
          var e :| e in init && NumericName(Some(e.dname)) && r.pidText == e.dname && r.pid == DecimalValue(e.dname);
          assert e in entries;
        } else {
          assert entries[|entries| - 1] in entries;
        }
      }
    }
  }

  class TaskViewer {
    /** The rows of the list store, top to bottom. */
    var rows: seq<Row>
    /** Process ids sent SIGTERM, in order. */
    var killed: seq<int>

    /** No signal has gone to `init` or to a non-positive id. */
    ghost predicate Valid()
      reads this
    {
      forall k :: 0 <= k < |killed| ==> killed[k] > 1
    }

    constructor ()
      ensures Valid() && rows == [] && killed == []
    {
      rows := [];
      killed := [];
    }

    /**
     * `refresh_processes`: clear the store, then append a row for each
     * usable entry of `/proc`; `None` stands for `/proc` failing to open.
     */
    method RefreshProcesses(proc: Option<seq<ProcEntry>>)
      modifies this
      ensures rows == (if proc.Some? then Rows(proc.value) else [])
      ensures killed == old(killed)
    {
      rows := [];
      if proc.None? {
        return;
      }
      var entries := proc.value;
      var i := 0;
      while i < |entries|
        invariant 0 <= i <= |entries|
        invariant rows == Rows(entries[..i])
        invariant killed == old(killed)
      {
        RowsStep(entries, i);
        var e := entries[i];
        var numeric := IsNumericName(Some(e.dname));
        if numeric && e.comm.Some? {
          var line := ReadLine(e.comm.value);
          if line.Some? {
            var name := CutName(line.value);
            rows := rows + [Row(e.dname, DisplayName(name), DecimalValue(e.dname))];
          }
        }
        i := i + 1;
      }
      assert entries[..i] == entries;
    }

    /**
     * `on_kill`: when a row is selected and its id is above 1, send it
     * SIGTERM and refresh from the listing `after`.
     */
    method OnKill(selected: Option<nat>, after: Option<seq<ProcEntry>>)
      requires Valid()
      requires selected.Some? ==> selected.value < |rows|
      modifies this
      ensures Valid()
      ensures selected.Some? && old(rows[selected.value].pid) > 1 ==>
        killed == old(killed) + [old(rows[selected.value].pid)]
        && rows == (if after.Some? then Rows(after.value) else [])
      ensures !(selected.Some? && old(rows[selected.value].pid) > 1) ==>
        killed == old(killed) && rows == old(rows)
    {
      if selected.Some? {
        var pid := rows[selected.value].pid;
        if pid > 1 {
          killed := killed + [pid];
          RefreshProcesses(after);
        }
      }
    }
  }
}

/** The modes configuration reader (`parse_modes_config`, modes_config.hpp): a
    line-by-line reader of a small YAML subset with a `modes` section (mode name
    to integer value) and a `state_masks` section (mode name to state name to
    boolean), combined into one "Available" mask per mode value. The file's
    lines are the input; opening and reading the file is not modelled. */
module ModesConfig {

  import opened Basics
  import opened Common
  import opened StdMap
  import Decimal
  import Engine

  // ---- string helpers ----

  /** The characters `trim` strips. */
  predicate IsTrimSpace(c: char) {
    c == ' ' || c == '\t' || c == '\r' || c == '\n'
  }

  predicate AllTrimSpace(s: string) {
    forall k :: 0 <= k < |s| ==> IsTrimSpace(s[k])
  }

  /** `find_first_not_of(" \t\r\n")`, with `npos` as `|s|`. */
  function FirstNotSpace(s: string): (i: nat)
    ensures i <= |s|
    ensures forall k :: 0 <= k < i ==> IsTrimSpace(s[k])
    ensures i < |s| ==> !IsTrimSpace(s[i])
  {
    if |s| == 0 || !IsTrimSpace(s[0]) then 0 else 1 + FirstNotSpace(s[1..])
  }

  /** `find_last_not_of(" \t\r\n")`, with `npos` as `-1`. */
  function LastNotSpace(s: string): (j: int)
    ensures -1 <= j < |s|
    ensures forall k :: j < k < |s| ==> IsTrimSpace(s[k])
    ensures j >= 0 ==> !IsTrimSpace(s[j])
  {
    if |s| == 0 then -1
    else if !IsTrimSpace(s[|s| - 1]) then |s| - 1
    else LastNotSpace(s[..|s| - 1])
  }

  /** `trim`: `s` without its leading and trailing blanks. */
  function Trim(s: string): (r: string)
    ensures r == "" <==> AllTrimSpace(s)
    ensures |r| > 0 ==> !IsTrimSpace(r[0]) && !IsTrimSpace(r[|r| - 1])
    ensures FirstNotSpace(s) + |r| <= |s| && r == s[FirstNotSpace(s)..FirstNotSpace(s) + |r|]
    ensures AllTrimSpace(s[FirstNotSpace(s) + |r|..])
  {
    var start := FirstNotSpace(s);
    if start == |s| then ""
    else
      var end := LastNotSpace(s);
      assert start <= end;
      s[start..end + 1]
  }

  /** `trim` recovers a string with non-blank ends from any blank padding. */
  lemma TrimPadded(a: string, s: string, b: string)
    requires AllTrimSpace(a) && AllTrimSpace(b)
    requires s == "" || (!IsTrimSpace(s[0]) && !IsTrimSpace(s[|s| - 1]))
    ensures Trim(a + s + b) == s
  {
    if s == "" {
      TrimBlankPadding(a, b);
      assert a + s + b == a + b;
    } else {
      TrimNonBlankPadded(a, s, b);
    }
  }

  lemma TrimBlankPadding(a: string, b: string)
    requires AllTrimSpace(a) && AllTrimSpace(b)
    ensures Trim(a + b) == ""
  {
    var w := a + b;
    assert AllTrimSpace(w) by {
      forall k | 0 <= k < |w| ensures IsTrimSpace(w[k]) {
        if k < |a| { assert w[k] == a[k]; } else { assert w[k] == b[k - |a|]; }
      }
    }
  }

  lemma TrimNonBlankPadded(a: string, s: string, b: string)
    requires AllTrimSpace(a) && AllTrimSpace(b)
    requires |s| > 0 && !IsTrimSpace(s[0]) && !IsTrimSpace(s[|s| - 1])
    ensures Trim(a + s + b) == s
  {
    var w := a + s + b;
    assert w == a + (s + b);
    FirstNotSpacePadded(a, s + b);
    assert w == (a + s) + b;
    LastNotSpacePadded(a + s, b);
    assert FirstNotSpace(w) == |a| && LastNotSpace(w) == |a| + |s| - 1;
    assert w[|a|..|a| + |s|] == s;
  }

  /** Trimming twice is trimming once. */
  lemma TrimIdempotent(s: string)
    ensures Trim(Trim(s)) == Trim(s)
  {
    var r := Trim(s);
    TrimPadded("", r, "");
    assert "" + r + "" == r;
  }

  lemma {:induction false} FirstNotSpacePadded(a: string, t: string)
    requires AllTrimSpace(a)
    ensures FirstNotSpace(a + t) == |a| + FirstNotSpace(t)
  {
    if |a| > 0 {
      assert (a + t)[1..] == a[1..] + t;
      assert AllTrimSpace(a[1..]) by {
        forall k | 0 <= k < |a| - 1 ensures IsTrimSpace(a[1..][k]) { assert a[1..][k] == a[k + 1]; }
      }
      FirstNotSpacePadded(a[1..], t);
    } else {
      assert a + t == t;
    }
  }

  lemma {:induction false} LastNotSpacePadded(t: string, b: string)
    requires AllTrimSpace(b)
    ensures LastNotSpace(t + b) == LastNotSpace(t)
    decreases |b|
  {
    if |b| > 0 {
      var b' := b[..|b| - 1];
      assert (t + b)[..|t + b| - 1] == t + b';
      assert (t + b)[|t + b| - 1] == b[|b| - 1];
      assert AllTrimSpace(b') by {
        forall k | 0 <= k < |b'| ensures IsTrimSpace(b'[k]) { assert b'[k] == b[k]; }
      }
      LastNotSpacePadded(t, b');
    } else {
      assert t + b == t;
    }
  }

  /** What `indent_of` counts, read as a definition: each leading space counts
      one, each leading tab two, and the first other character ends the count. */
  function Indent(s: string): (n: nat)
  {
    if |s| == 0 then 0
    else if s[0] == ' ' then 1 + Indent(s[1..])
    else if s[0] == '\t' then 2 + Indent(s[1..])
    else 0
  }

  /** `indent_of`: the loop over the line, stopping at its first non-indent
      character. */
  method IndentOf(s: string) returns (n: int)
    ensures n == Indent(s)
  {
    n := 0;
    var i := 0;
    while i < |s| && (s[i] == ' ' || s[i] == '\t')
      invariant 0 <= i <= |s|
      invariant n + Indent(s[i..]) == Indent(s)
    {
      assert s[i..][1..] == s[i + 1..];
      if s[i] == ' ' {
        n := n + 1;
      } else {
        n := n + 2;
      }
      i := i + 1;
    }
  }

  /** Indentation counts only the leading run of spaces and tabs. */
  lemma {:induction false} IndentOfPrefixed(c: char, t: string)
    ensures Indent([c] + t) == (if c == ' ' then 1 + Indent(t) else if c == '\t' then 2 + Indent(t) else 0)
  {
    assert ([c] + t)[1..] == t;
  }

  /** The first position of `c` in `s` (`find`), or `None` for `npos`. */
  function Find(s: string, c: char): (r: Option<nat>)
    ensures r.None? <==> c !in s
    ensures r.Some? ==> r.value < |s| && s[r.value] == c && c !in s[..r.value]
  {
    if |s| == 0 then None
    else if s[0] == c then Some(0)
    else
      match Find(s[1..], c)
      case None => None
      case Some(i) =>
        assert s[..i + 1] == [s[0]] + s[1..][..i];
        Some(i + 1)
  }

  /** Comment stripping: everything from the first `#` on is dropped. */
  function StripComment(line: string): (r: string)
    ensures '#' !in r
    ensures r <= line
    ensures '#' in line ==> line[|r|] == '#'
  {
    match Find(line, '#')
    case None => line
    case Some(i) => line[..i]
  }

  /** The boolean spellings of a mask entry: "false", "0" and "no" read as
      false; "true", "1", "yes" and anything unrecognised read as true. */
  function ParseBool(val: string): (b: bool)
    ensures !b <==> val in {"false", "0", "no"}
  {
    if val == "true" || val == "1" || val == "yes" then true
    else if val == "false" || val == "0" || val == "no" then false
    else true
  }

  /** `state_name_map`: the seventeen machine states by their upper-case names. */
  function StateOfName(name: string): (r: Option<State>)
    ensures r.Some? ==> r.value in Engine.MachineStates
  {
    if name == "ABORTING" then Some(Aborting)
    else if name == "ABORTED" then Some(Aborted)
    else if name == "CLEARING" then Some(Clearing)
    else if name == "STOPPING" then Some(Stopping)
    else if name == "STOPPED" then Some(Stopped)
    else if name == "RESETTING" then Some(Resetting)
    else if name == "IDLE" then Some(Idle)
    else if name == "STARTING" then Some(Starting)
    else if name == "EXECUTE" then Some(Execute)
    else if name == "HOLDING" then Some(Holding)
    else if name == "HELD" then Some(Held)
    else if name == "UNHOLDING" then Some(Unholding)
    else if name == "SUSPENDING" then Some(Suspending)
    else if name == "SUSPENDED" then Some(Suspended)
    else if name == "UNSUSPENDING" then Some(Unsuspending)
    else if name == "COMPLETING" then Some(Completing)
    else if name == "COMPLETE" then Some(Complete)
    else None
  }

  /** The name table is the inverse of the machine's own state names: every
      state but UNDEFINED is found under its name, and UNDEFINED is not. */
  lemma StateOfNameInvertsStateName(s: State)
    ensures s != Undefined ==> StateOfName(StateName(s)) == Some(s)
    ensures s == Undefined ==> StateOfName(StateName(s)) == None
  {
    StateNameSpelling();
    match s
    case Undefined =>
    case Clearing =>
    case Stopped =>
    case Starting =>
    case Idle =>
    case Suspended =>
    case Execute =>
    case Stopping =>
    case Aborting =>
    case Aborted =>
    case Holding =>
    case Held =>
    case Unholding =>
    case Suspending =>
    case Unsuspending =>
    case Resetting =>
    case Completing =>
    case Complete =>
  }

  /** A name is found only if it is the name of the state found. */
  lemma StateOfNameOnlyNames(name: string)
    ensures StateOfName(name).Some? ==> StateName(StateOfName(name).value) == name
  {
    StateNameSpelling();
  }

  /** `all_true`: every machine state available. */
  const AllTrue: map<State, bool> := map s | s in Engine.MachineStates :: true

  /** The default mask is the one the machine installs for a mode with no
      exception (PRODUCTION). */
  lemma AllTrueIsProductionProfile()
    ensures AllTrue == Engine.Profile(ModeProduction)
  {
  }

  // ---- the reader ----

  datatype Section = NoSection | Modes | StateMasks

  /** The reader's variables: the current section, `current_mode_name`,
      `mode_values` and `raw_masks`. */
  datatype Reader = Reader(
    section: Section,
    currentModeName: string,
    modeValues: seq<Entry<int>>,
    rawMasks: seq<Entry<map<State, bool>>>)

  const Start: Reader := Reader(NoSection, "", [], [])

  /** Every stored mask covers exactly the seventeen machine states. */
  ghost predicate MasksComplete(masks: seq<Entry<map<State, bool>>>) {
    forall k :: Get(masks, k).Some? ==> Get(masks, k).value.Keys == Engine.MachineStates
  }

  /** What the reader keeps true: both maps ordered, every mask complete, and
      a current mode name, when set, naming a mask. */
  ghost predicate ReaderValid(p: Reader) {
    && Sorted(p.modeValues) && Sorted(p.rawMasks)
    && MasksComplete(p.rawMasks)
    && (p.currentModeName != "" ==> Get(p.rawMasks, p.currentModeName).Some?)
  }

  /** A line's `key` and `val`, trimmed, around its first colon. */
  datatype Split = Split(key: string, val: string)

  function SplitLine(content: string): (r: Option<Split>)
    ensures r.None? <==> ':' !in content
    ensures r.Some? ==> ':' !in r.value.key
  {
    match Find(content, ':')
    case None => None
    case Some(colon) =>
      var before := content[..colon];
      var key := Trim(before);
      assert ':' !in key by {
        assert key == before[FirstNotSpace(before)..FirstNotSpace(before) + |key|];
      }
      Some(Split(Trim(before), Trim(content[colon + 1..])))
  }

  /** A line at indent 0: a section header, which also forgets the current mode name. */
  function AtTop(p: Reader, key: string): (r: Reader)
    requires ReaderValid(p)
    ensures ReaderValid(r)
    ensures r.currentModeName == "" && r.modeValues == p.modeValues && r.rawMasks == p.rawMasks
    ensures (r.section == Modes <==> key == "modes") && (r.section == StateMasks <==> key == "state_masks")
  {
    var section := if key == "modes" then Modes else if key == "state_masks" then StateMasks else NoSection;
    p.(section := section, currentModeName := "")
  }

  /** A line at indent 2: a mode's value under `modes`, or the start of a
      mode's mask under `state_masks`. */
  function AtMode(p: Reader, key: string, val: string): (r: Reader)
    requires ReaderValid(p)
    ensures ReaderValid(r)
    ensures r.section == p.section
  {
    if p.section == Modes then
      if val == "" then p
      else
        match Decimal.Stoi(val)
        case None => p
        case Some(v) =>
          PutSorted(p.modeValues, key, v);
          p.(modeValues := Put(p.modeValues, key, v))
    else if p.section == StateMasks then
      if Get(p.rawMasks, key).None? then
        AddDefaultMask(p, key);
        p.(currentModeName := key, rawMasks := Put(p.rawMasks, key, AllTrue))
      else p.(currentModeName := key)
    else p
  }

  lemma AddDefaultMask(p: Reader, key: string)
    requires ReaderValid(p)
    ensures Sorted(Put(p.rawMasks, key, AllTrue)) && MasksComplete(Put(p.rawMasks, key, AllTrue))
    ensures Get(Put(p.rawMasks, key, AllTrue), key).Some?
    ensures p.currentModeName != "" ==> Get(Put(p.rawMasks, key, AllTrue), p.currentModeName).Some?
  {
    PutSorted(p.rawMasks, key, AllTrue);
    forall k | true
      ensures Get(Put(p.rawMasks, key, AllTrue), k) == if k == key then Some(AllTrue) else Get(p.rawMasks, k)
    {
      GetPut(p.rawMasks, key, AllTrue, k);
    }
  }

  /** A line at indent 4 under `state_masks`: one state of the current mode's
      mask; an unknown state name is skipped. */
  function AtState(p: Reader, key: string, val: string): (r: Reader)
    requires ReaderValid(p)
    ensures ReaderValid(r)
    ensures r.section == p.section && r.currentModeName == p.currentModeName && r.modeValues == p.modeValues
  {
    if p.section == StateMasks && p.currentModeName != "" then
      match StateOfName(key)
      case None => p
      case Some(s) =>
        var mask := Get(p.rawMasks, p.currentModeName).value;
        SetMaskEntry(p, s, ParseBool(val));
        p.(rawMasks := Put(p.rawMasks, p.currentModeName, mask[s := ParseBool(val)]))
    else p
  }

  lemma SetMaskEntry(p: Reader, s: State, b: bool)
    requires ReaderValid(p) && p.currentModeName != "" && s in Engine.MachineStates
    ensures var mask := Get(p.rawMasks, p.currentModeName).value;
      && Sorted(Put(p.rawMasks, p.currentModeName, mask[s := b]))
      && MasksComplete(Put(p.rawMasks, p.currentModeName, mask[s := b]))
      && Get(Put(p.rawMasks, p.currentModeName, mask[s := b]), p.currentModeName).Some?
  {
    var mask := Get(p.rawMasks, p.currentModeName).value;
    var mask' := mask[s := b];
    assert mask'.Keys == Engine.MachineStates;
    var q := Put(p.rawMasks, p.currentModeName, mask');
    PutSorted(p.rawMasks, p.currentModeName, mask');
    forall k | Get(q, k).Some?
      ensures Get(q, k).value.Keys == Engine.MachineStates
    {
      GetPut(p.rawMasks, p.currentModeName, mask', k);
    }
    GetPut(p.rawMasks, p.currentModeName, mask', p.currentModeName);
  }

  /** A line's key and value handed to the handler of its indentation; any
      other indentation is skipped. */
  function Dispatch(p: Reader, indent: nat, key: string, val: string): (r: Reader)
    requires ReaderValid(p)
    ensures ReaderValid(r)
  {
    if indent == 0 then AtTop(p, key)
    else if indent == 2 then AtMode(p, key, val)
    else if indent == 4 then AtState(p, key, val)
    else p
  }

  /** One line of the file: strip the comment, skip a blank line or one with no
      colon, and dispatch the rest on its indentation. */
  function ReadLine(p: Reader, raw: string): (r: Reader)
    requires ReaderValid(p)
    ensures ReaderValid(r)
  {
    var line := StripComment(raw);
    ReadContent(p, Indent(line), Trim(line))
  }

  /** A line's content, trimmed, at its indentation. */
  function ReadContent(p: Reader, indent: nat, content: string): (r: Reader)
    requires ReaderValid(p)
    ensures ReaderValid(r)
  {
    if content == "" then p
    else
      match SplitLine(content)
      case None => p
      case Some(Split(key, val)) => Dispatch(p, indent, key, val)
  }

  /** The reader over the whole file, line by line. */
  function ReadLines(p: Reader, lines: seq<string>): (r: Reader)
    requires ReaderValid(p)
    ensures ReaderValid(r)
    decreases |lines|
  {
    if |lines| == 0 then p else ReadLines(ReadLine(p, lines[0]), lines[1..])
  }

  // ---- combining the two maps ----

  /** Entry `i` is the last one, in key order, whose mode has the same value. */
  predicate LastWithValue(raw: seq<Entry<map<State, bool>>>, values: seq<Entry<int>>, i: int)
    requires 0 <= i < |raw|
  {
    forall j :: i < j < |raw| ==> Get(values, raw[j].key) != Get(values, raw[i].key)
  }

  /** The final loop: every mask whose mode name has a value is stored under
      that value, visiting the masks in key order, so when two modes share a
      value the one with the greater name wins. */
  function Combine(raw: seq<Entry<map<State, bool>>>, values: seq<Entry<int>>): map<int, map<State, bool>>
    decreases |raw|
  {
    if |raw| == 0 then map[]
    else
      var prev := Combine(raw[..|raw| - 1], values);
      match Get(values, raw[|raw| - 1].key)
      case None => prev
      case Some(v) => prev[v := raw[|raw| - 1].value]
  }

  /** A value is in the result exactly when some mask's mode name has it. */
  lemma {:induction false} CombineDomain(raw: seq<Entry<map<State, bool>>>, values: seq<Entry<int>>, v: int)
    ensures v in Combine(raw, values) <==> exists i :: 0 <= i < |raw| && Get(values, raw[i].key) == Some(v)
    decreases |raw|
  {
    if |raw| > 0 {
      var n := |raw| - 1;
      var front := raw[..n];
      var prev := Combine(front, values);
      var r := Combine(raw, values);
      CombineDomain(front, values, v);
      if Get(values, raw[n].key) == Some(v) {
        assert v in r;
      } else {
        assert v in r <==> v in prev;
        if v in prev {
          var i :| 0 <= i < n && Get(values, front[i].key) == Some(v);
          assert raw[i] == front[i];
        }
        if exists i :: 0 <= i < |raw| && Get(values, raw[i].key) == Some(v) {
          var i :| 0 <= i < |raw| && Get(values, raw[i].key) == Some(v);
          assert front[i] == raw[i];
        }
      }
    }
  }

  /** The mask stored under a value is the last one, in key order, whose mode
      name has that value. */
  lemma {:induction false} CombineLast(raw: seq<Entry<map<State, bool>>>, values: seq<Entry<int>>, i: int)
    requires 0 <= i < |raw| && Get(values, raw[i].key).Some? && LastWithValue(raw, values, i)
    ensures Get(values, raw[i].key).value in Combine(raw, values)
    ensures Combine(raw, values)[Get(values, raw[i].key).value] == raw[i].value
    decreases |raw|
  {
    var n := |raw| - 1;
    if i < n {
      var front := raw[..n];
      assert Get(values, raw[n].key) != Get(values, raw[i].key);
      assert front[i] == raw[i];
      assert LastWithValue(front, values, i) by {
        forall j | i < j < n
          ensures Get(values, front[j].key) != Get(values, front[i].key)
        {
          assert front[j] == raw[j];
        }
      }
      CombineLast(front, values, i);
    }
  }

  /** The reader's state after the whole file. */
  function Read(lines: seq<string>): (p: Reader)
    ensures ReaderValid(p)
  {
    ReadLines(Start, lines)
  }

  /** `parse_modes_config` on the lines of the file. */
  function ParseModesConfig(lines: seq<string>): (r: map<int, map<State, bool>>)
    ensures forall v :: v in r ==> r[v].Keys == Engine.MachineStates
  {
    var p := Read(lines);
    var r := Combine(p.rawMasks, p.modeValues);
    forall v | v in r
      ensures r[v].Keys == Engine.MachineStates
    {
      CombineDomain(p.rawMasks, p.modeValues, v);
      var i :| 0 <= i < |p.rawMasks| && Get(p.modeValues, p.rawMasks[i].key) == Some(v);
      var i' := LastIndexWithValue(p.rawMasks, p.modeValues, i);
      CombineLast(p.rawMasks, p.modeValues, i');
      GetAt(p.rawMasks, i');
    }
    r
  }

  /** Among the entries with the value of entry `i`, the last one. */
  lemma {:induction false} LastIndexWithValue(raw: seq<Entry<map<State, bool>>>, values: seq<Entry<int>>, i: int) returns (i': int)
    requires 0 <= i < |raw|
    ensures i <= i' < |raw| && Get(values, raw[i'].key) == Get(values, raw[i].key)
    ensures LastWithValue(raw, values, i')
    decreases |raw| - i
  {
    if LastWithValue(raw, values, i) {
      i' := i;
    } else {
      var j :| i < j < |raw| && Get(values, raw[j].key) == Get(values, raw[i].key);
      i' := LastIndexWithValue(raw, values, j);
    }
  }

  /** A mode value gets a mask exactly when some mode name has both that value
      and a mask. */
  lemma CombinedModes(raw: seq<Entry<map<State, bool>>>, values: seq<Entry<int>>, v: int)
    requires Sorted(raw)
    ensures v in Combine(raw, values) <==> exists name :: Get(values, name) == Some(v) && Get(raw, name).Some?
  {
    CombineDomain(raw, values, v);
    if v in Combine(raw, values) {
      var i :| 0 <= i < |raw| && Get(values, raw[i].key) == Some(v);
      GetAt(raw, i);
    }
    if exists name :: Get(values, name) == Some(v) && Get(raw, name).Some? {
      var name :| Get(values, name) == Some(v) && Get(raw, name).Some?;
      GetFound(raw, name);
      var i :| 0 <= i < |raw| && raw[i] == Entry(name, Get(raw, name).value);
      assert Get(values, raw[i].key) == Some(v);
    }
  }

  /** The mask stored under a value is that of the mode name with the value,
      when no other mode name with a mask shares it. */
  lemma CombinedMask(raw: seq<Entry<map<State, bool>>>, values: seq<Entry<int>>, name: string, v: int)
    requires Sorted(raw)
    requires Get(values, name) == Some(v) && Get(raw, name).Some?
    requires forall other :: other != name && Get(raw, other).Some? ==> Get(values, other) != Some(v)
    ensures v in Combine(raw, values) && Combine(raw, values)[v] == Get(raw, name).value
  {
    GetFound(raw, name);
    var i :| 0 <= i < |raw| && raw[i] == Entry(name, Get(raw, name).value);
    forall j | i < j < |raw|
      ensures Get(values, raw[j].key) != Some(v)
    {
      GetAt(raw, j);
      assert Less(raw[i].key, raw[j].key);
      LessIrreflexive(name);
    }
    assert LastWithValue(raw, values, i);
    CombineLast(raw, values, i);
  }

  /** The same two facts about the whole file: a mode value has a mask in the
      result exactly when some mode name was given that value under `modes`
      and appeared under `state_masks`; and that mask is the result's, unless
      another mode name with a mask shares the value. */
  lemma ParsedModes(lines: seq<string>, v: int)
    ensures v in ParseModesConfig(lines) <==>
      exists name :: Get(Read(lines).modeValues, name) == Some(v) && Get(Read(lines).rawMasks, name).Some?
  {
    var p := Read(lines);
    assert ParseModesConfig(lines) == Combine(p.rawMasks, p.modeValues);
    CombinedModes(p.rawMasks, p.modeValues, v);
  }

  lemma ParsedMask(lines: seq<string>, name: string, v: int)
    requires Get(Read(lines).modeValues, name) == Some(v) && Get(Read(lines).rawMasks, name).Some?
    requires forall other :: other != name && Get(Read(lines).rawMasks, other).Some? ==> Get(Read(lines).modeValues, other) != Some(v)
    ensures v in ParseModesConfig(lines) && ParseModesConfig(lines)[v] == Get(Read(lines).rawMasks, name).value
  {
    var p := Read(lines);
    assert ParseModesConfig(lines) == Combine(p.rawMasks, p.modeValues);
    CombinedMask(p.rawMasks, p.modeValues, name, v);
  }

  // ---- the line format, read back ----

  function Spaces(k: nat): (s: string)
    ensures |s| == k && AllTrimSpace(s) && '#' !in s
  {
    seq(k, _ => ' ')
  }

  /** A key the reader takes back as written: non-empty, without a colon or a
      comment sign, and with no blank at either end. */
  predicate PlainKey(key: string) {
    |key| > 0 && ':' !in key && '#' !in key && !IsTrimSpace(key[0]) && !IsTrimSpace(key[|key| - 1])
  }

  /** A value the reader takes back as written: empty, or without a comment
      sign and with no blank at either end. */
  predicate PlainValue(val: string) {
    '#' !in val && (val == "" || (!IsTrimSpace(val[0]) && !IsTrimSpace(val[|val| - 1])))
  }

  /** A line `indent` spaces deep: the key, a colon, and the value after one
      space when there is one. */
  function Line(indent: nat, key: string, val: string): string {
    Spaces(indent) + Content(key, val)
  }

  function Content(key: string, val: string): string {
    key + ":" + (if val == "" then "" else " " + val)
  }

  lemma {:induction false} FindAfter(a: string, c: char, t: string)
    requires c !in a
    ensures Find(a + [c] + t, c) == Some(|a|)
  {
    if |a| > 0 {
      assert (a + [c] + t)[1..] == a[1..] + [c] + t;
      FindAfter(a[1..], c, t);
    }
  }

  lemma {:induction false} IndentAfterSpaces(k: nat, t: string)
    ensures Indent(Spaces(k) + t) == k + Indent(t)
  {
    if k > 0 {
      assert (Spaces(k) + t)[1..] == Spaces(k - 1) + t;
      IndentAfterSpaces(k - 1, t);
    } else {
      assert Spaces(k) + t == t;
    }
  }

  /** The reader takes a written line apart into the indentation, key and
      value it was written with, and hands them to the handler of that
      indentation. */
  lemma ReadLineOfLine(p: Reader, indent: nat, key: string, val: string)
    requires ReaderValid(p) && PlainKey(key) && PlainValue(val)
    ensures ReadLine(p, Line(indent, key, val)) == Dispatch(p, indent, key, val)
  {
    var line := Line(indent, key, val);
    var content := Content(key, val);
    NoCommentInLine(indent, key, val);
    TrimLine(indent, key, val);
    IndentOfLine(indent, key, val);
    assert ReadLine(p, line) == ReadContent(p, indent, content);
    SplitContent(key, val);
  }

  lemma IndentOfLine(indent: nat, key: string, val: string)
    requires PlainKey(key)
    ensures Indent(Line(indent, key, val)) == indent
  {
    IndentAfterSpaces(indent, Content(key, val));
    assert Content(key, val)[0] == key[0];
  }

  lemma NoCommentInLine(indent: nat, key: string, val: string)
    requires PlainKey(key) && PlainValue(val)
    ensures StripComment(Line(indent, key, val)) == Line(indent, key, val)
  {
    var suffix := if val == "" then "" else " " + val;
    assert '#' !in suffix;
    assert '#' !in Content(key, val);
  }

  lemma TrimLine(indent: nat, key: string, val: string)
    requires PlainKey(key) && PlainValue(val)
    ensures Trim(Line(indent, key, val)) == Content(key, val)
  {
    var core := Content(key, val);
    assert core[0] == key[0];
    assert core[|core| - 1] == if val == "" then ':' else val[|val| - 1];
    assert Line(indent, key, val) == Spaces(indent) + core + "";
    TrimPadded(Spaces(indent), core, "");
  }

  lemma SplitContent(key: string, val: string)
    requires PlainKey(key) && PlainValue(val)
    ensures SplitLine(Content(key, val)) == Some(Split(key, val))
  {
    var suffix := if val == "" then "" else " " + val;
    var core := Content(key, val);
    FindAfter(key, ':', suffix);
    assert core[..|key|] == key;
    TrimPadded("", key, "");
    assert "" + key + "" == key;
    assert core[|key| + 1..] == suffix;
    if val != "" {
      TrimPadded(" ", val, "");
      assert " " + val + "" == suffix;
    }
  }

  /** A section header is read as one. */
  lemma ReadHeader(p: Reader, key: string)
    requires ReaderValid(p) && PlainKey(key)
    ensures ReadLine(p, Line(0, key, "")) == AtTop(p, key)
  {
    ReadLineOfLine(p, 0, key, "");
  }

  /** A mode's value under `modes`, written in decimal, is stored as written. */
  lemma ReadModeValue(p: Reader, name: string, n: int)
    requires ReaderValid(p) && p.section == Modes && PlainKey(name) && Decimal.IntMin <= n <= Decimal.IntMax
    ensures ReadLine(p, Line(2, name, Decimal.IntToDecimal(n))).modeValues == Put(p.modeValues, name, n)
    ensures ReadLine(p, Line(2, name, Decimal.IntToDecimal(n))) == p.(modeValues := Put(p.modeValues, name, n))
  {
    var d := Decimal.IntToDecimal(n);
    assert forall k :: 0 <= k < |d| ==> d[k] != '#';
    ReadLineOfLine(p, 2, name, d);
    Decimal.StoiOfDecimal(n);
  }

  /** A mode's name under `state_masks` makes it the current mode, with an
      all-true mask unless it already has one. */
  lemma ReadMaskStart(p: Reader, name: string)
    requires ReaderValid(p) && p.section == StateMasks && PlainKey(name)
    ensures Get(p.rawMasks, name).Some? ==> ReadLine(p, Line(2, name, "")) == p.(currentModeName := name)
    ensures Get(p.rawMasks, name).None? ==>
      ReadLine(p, Line(2, name, "")) == p.(currentModeName := name, rawMasks := Put(p.rawMasks, name, AllTrue))
  {
    ReadLineOfLine(p, 2, name, "");
    assert Dispatch(p, 2, name, "") == AtMode(p, name, "");
  }

  /** A state's entry under the current mode sets that state's flag of the
      current mode's mask and nothing else. */
  lemma ReadMaskEntry(p: Reader, s: State, val: string)
    requires ReaderValid(p) && p.section == StateMasks && p.currentModeName != ""
    requires s != Undefined && PlainValue(val)
    ensures ReadLine(p, Line(4, StateName(s), val)) ==
      p.(rawMasks := Put(p.rawMasks, p.currentModeName, Get(p.rawMasks, p.currentModeName).value[s := ParseBool(val)]))
  {
    StateNameIsPlainKey(s);
    ReadLineOfLine(p, 4, StateName(s), val);
    assert Dispatch(p, 4, StateName(s), val) == AtState(p, StateName(s), val);
    StateOfNameInvertsStateName(s);
  }

  /** Every state name can stand as a key: the first nine states. */
  lemma PlainStateNamesLow()
    ensures PlainKey(StateName(Undefined))
    ensures PlainKey(StateName(Clearing))
    ensures PlainKey(StateName(Stopped))
    ensures PlainKey(StateName(Starting))
    ensures PlainKey(StateName(Idle))
    ensures PlainKey(StateName(Suspended))
    ensures PlainKey(StateName(Execute))
    ensures PlainKey(StateName(Stopping))
    ensures PlainKey(StateName(Aborting))
  {
  }

  /** ... and the other nine. */
  lemma PlainStateNamesHigh()
    ensures PlainKey(StateName(Aborted))
    ensures PlainKey(StateName(Holding))
    ensures PlainKey(StateName(Held))
    ensures PlainKey(StateName(Unholding))
    ensures PlainKey(StateName(Suspending))
    ensures PlainKey(StateName(Unsuspending))
    ensures PlainKey(StateName(Resetting))
    ensures PlainKey(StateName(Completing))
    ensures PlainKey(StateName(Complete))
  {
  }

  lemma StateNameIsPlainKey(s: State)
    ensures PlainKey(StateName(s))
  {
    PlainStateNamesLow();
    PlainStateNamesHigh();
    match s
    case Undefined =>
    case Clearing =>
    case Stopped =>
    case Starting =>
    case Idle =>
    case Suspended =>
    case Execute =>
    case Stopping =>
    case Aborting =>
    case Aborted =>
    case Holding =>
    case Held =>
    case Unholding =>
    case Suspending =>
    case Unsuspending =>
    case Resetting =>
    case Completing =>
    case Complete =>
  }

  /** A blank line, and a line whose first non-blank character opens a
      comment, leave the reader as it was. */
  lemma CommentAndBlankLinesIgnored(p: Reader, blank: string, rest: string)
    requires ReaderValid(p) && AllTrimSpace(blank)
    ensures ReadLine(p, blank) == p
    ensures ReadLine(p, blank + "#" + rest) == p
  {
    assert forall k :: 0 <= k < |blank| ==> blank[k] != '#';
    FindAfter(blank, '#', rest);
    assert (blank + "#" + rest)[..|blank|] == blank;
  }

  lemma StartValid()
    ensures ReaderValid(Start)
  {
  }

  /** The reader over a non-empty file: the first line, then the rest. */
  lemma ReadLinesCons(p: Reader, line: string, lines: seq<string>)
    requires ReaderValid(p)
    ensures ReadLines(p, [line] + lines) == ReadLines(ReadLine(p, line), lines)
  {
    assert ([line] + lines)[1..] == lines;
  }

  /** The lines of a file that gives one mode the value `n` and turns one
      state `s` off for it. */
  function OneMaskLines(name: string, n: int, s: State): seq<string> {
    [Line(0, "modes", ""),
     Line(2, name, Decimal.IntToDecimal(n)),
     Line(0, "state_masks", ""),
     Line(2, name, ""),
     Line(4, StateName(s), "false")]
  }

  lemma OneMaskModes(name: string, n: int)
    requires PlainKey(name) && Decimal.IntMin <= n <= Decimal.IntMax
    ensures ReaderValid(ReadLine(Start, Line(0, "modes", "")))
    ensures ReadLine(ReadLine(Start, Line(0, "modes", "")), Line(2, name, Decimal.IntToDecimal(n))) ==
      Reader(Modes, "", [Entry(name, n)], [])
  {
    StartValid();
    ReadHeader(Start, "modes");
    var p := ReadLine(Start, Line(0, "modes", ""));
    ReadModeValue(p, name, n);
  }

  lemma OneMaskHeader(p: Reader)
    requires ReaderValid(p)
    ensures ReadLine(p, Line(0, "state_masks", "")) == p.(section := StateMasks, currentModeName := "")
  {
    ReadHeader(p, "state_masks");
  }

  lemma OneMaskStart(p: Reader, name: string)
    requires ReaderValid(p) && p.section == StateMasks && p.rawMasks == [] && PlainKey(name)
    ensures ReadLine(p, Line(2, name, "")) == p.(currentModeName := name, rawMasks := [Entry(name, AllTrue)])
  {
    ReadMaskStart(p, name);
    assert Put(p.rawMasks, name, AllTrue) == [Entry(name, AllTrue)];
  }

  lemma OneMaskEntry(p: Reader, name: string, s: State)
    requires ReaderValid(p) && p.section == StateMasks && p.currentModeName == name && name != ""
    requires p.rawMasks == [Entry(name, AllTrue)] && s != Undefined
    ensures ReadLine(p, Line(4, StateName(s), "false")) == p.(rawMasks := [Entry(name, AllTrue[s := false])])
  {
    ReadMaskEntry(p, s, "false");
    assert Get(p.rawMasks, name) == Some(AllTrue);
    assert ParseBool("false") == false;
    assert Put(p.rawMasks, name, AllTrue[s := false]) == [Entry(name, AllTrue[s := false])];
  }

  /** The reader over five lines, one at a time. */
  lemma ReadFive(p: Reader, lines: seq<string>)
    requires ReaderValid(p) && |lines| == 5
    ensures ReadLines(p, lines) ==
      ReadLine(ReadLine(ReadLine(ReadLine(ReadLine(p, lines[0]), lines[1]), lines[2]), lines[3]), lines[4])
  {
    var q1 := ReadLine(p, lines[0]);
    var q2 := ReadLine(q1, lines[1]);
    var q3 := ReadLine(q2, lines[2]);
    var q4 := ReadLine(q3, lines[3]);
    var q5 := ReadLine(q4, lines[4]);
    assert ReadLines(p, lines) == ReadLines(q1, lines[1..]);
    assert lines[1..][0] == lines[1] && lines[1..][1..] == lines[2..];
    assert ReadLines(q1, lines[1..]) == ReadLines(q2, lines[2..]);
    assert lines[2..][0] == lines[2] && lines[2..][1..] == lines[3..];
    assert ReadLines(q2, lines[2..]) == ReadLines(q3, lines[3..]);
    assert lines[3..][0] == lines[3] && lines[3..][1..] == lines[4..];
    assert ReadLines(q3, lines[3..]) == ReadLines(q4, lines[4..]);
    assert lines[4..][0] == lines[4] && lines[4..][1..] == [];
    assert ReadLines(q4, lines[4..]) == ReadLines(q5, []);
  }

  lemma OneMaskRead(name: string, n: int, s: State)
    requires PlainKey(name) && Decimal.IntMin <= n <= Decimal.IntMax && s != Undefined
    ensures Read(OneMaskLines(name, n, s)) == Reader(StateMasks, name, [Entry(name, n)], [Entry(name, AllTrue[s := false])])
  {
    var lines := OneMaskLines(name, n, s);
    StartValid();
    ReadFive(Start, lines);
    OneMaskModes(name, n);
    var p2 := ReadLine(ReadLine(Start, lines[0]), lines[1]);
    OneMaskHeader(p2);
    var p3 := ReadLine(p2, lines[2]);
    OneMaskStart(p3, name);
    var p4 := ReadLine(p3, lines[3]);
    OneMaskEntry(p4, name, s);
  }

  /** Such a file reads as one mask: every state available but `s`, under the
      value `n`. */
  lemma OneMaskFile(name: string, n: int, s: State)
    requires PlainKey(name) && Decimal.IntMin <= n <= Decimal.IntMax && s != Undefined
    ensures ParseModesConfig(OneMaskLines(name, n, s)) == map[n := AllTrue[s := false]]
  {
    var lines := OneMaskLines(name, n, s);
    OneMaskRead(name, n, s);
    var p := Read(lines);
    assert ParseModesConfig(lines) == Combine(p.rawMasks, p.modeValues);
    CombineSingle(name, n, AllTrue[s := false]);
  }

  lemma CombineSingle(name: string, n: int, mask: map<State, bool>)
    ensures Combine([Entry(name, mask)], [Entry(name, n)]) == map[n := mask]
  {
    assert [Entry(name, mask)][..0] == [];
  }

  /** A file giving MAINTENANCE the value 2 and turning COMPLETING off for it
      reads as the mask the machine itself installs for MAINTENANCE. */
  lemma MaintenanceFile()
    ensures ParseModesConfig(OneMaskLines("MAINTENANCE", 2, Completing)) ==
      map[ModeMaintenance := Engine.Profile(ModeMaintenance)]
  {
    OneMaskFile("MAINTENANCE", 2, Completing);
  }
}

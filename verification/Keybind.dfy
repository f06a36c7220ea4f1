/**
 Keyboard shortcuts: "CmdOrCtrl+Shift+K" and the like.
 */
module Keybind {
  import opened Wrappers
  import opened Strings

  datatype Shortcut = Shortcut(cmdOrCtrl: bool, alt: bool, shift: bool, key: string)

  datatype Error = Empty | TooShort | Duplicate(part: string) | InvalidModifier(part: string) | NoKey | NoModifier

  predicate IsModifier(part: string) {
    part == "CmdOrCtrl" || part == "Alt" || part == "Shift"
  }

  // ----- what a shortcut means -----

  function Key(parts: seq<string>): string
    requires parts != []
  {
    parts[|parts| - 1]
  }

  /** Distinct modifiers and then one key. */
  ghost predicate Accepted(parts: seq<string>) {
    && |parts| >= 2
    && Key(parts) != "" && !IsModifier(Key(parts))
    && (forall i :: 0 <= i < |parts| - 1 ==> IsModifier(parts[i]))
    && (forall i, j :: 0 <= i < j < |parts| - 1 ==> parts[i] != parts[j])
  }

  ghost function Meaning(parts: seq<string>): Shortcut
    requires parts != []
  {
    Shortcut("CmdOrCtrl" in parts, "Alt" in parts, "Shift" in parts, Key(parts))
  }

  ghost function Parsed(s: string): Option<Shortcut> {
    var parts := Split(s, '+');
    if Accepted(parts) then Some(Meaning(parts)) else None
  }

  /** A modifier that came before, or something else before the last part. */
  predicate Wrong(parts: seq<string>, i: nat) {
    i < |parts| && if IsModifier(parts[i]) then parts[i] in parts[..i] else i < |parts| - 1
  }

  ghost predicate Readable(parts: seq<string>) {
    forall i :: 0 <= i < |parts| ==> !Wrong(parts, i)
  }

  ghost predicate FirstWrong(parts: seq<string>, i: nat) {
    Wrong(parts, i) && forall j :: 0 <= j < i ==> !Wrong(parts, j)
  }

  function Fault(parts: seq<string>, i: nat): Error
    requires i < |parts|
  {
    if IsModifier(parts[i]) then Duplicate(parts[i]) else InvalidModifier(parts[i])
  }

  /** The error is about the first part that is wrong. */
  ghost predicate Faults(parts: seq<string>, e: Error) {
    exists i: nat :: FirstWrong(parts, i) && e == Fault(parts, i)
  }

  /** The loop over the parts, which stops at the first wrong one. */
  method ReadParts(parts: seq<string>) returns (r: Result<Shortcut, Error>)
    requires parts != []
    ensures r.Ok? <==> Readable(parts)
    ensures r.Ok? ==> r.value == Meaning(parts).(key := if IsModifier(Key(parts)) then "" else Key(parts))
    ensures r.Err? ==> Faults(parts, r.error)
  {
    var p := Shortcut(false, false, false, "");
    var seen: map<string, bool> := map[];
    for i := 0 to |parts|
      invariant forall j :: 0 <= j < i ==> !Wrong(parts, j)
      invariant forall part :: part in seen <==> IsModifier(part) && part in parts[..i]
      invariant p == Shortcut("CmdOrCtrl" in parts[..i], "Alt" in parts[..i], "Shift" in parts[..i],
                              if i == |parts| && !IsModifier(Key(parts)) then Key(parts) else "")
    {
      var part := parts[i];
      assert parts[..i + 1] == parts[..i] + [part];
      if IsModifier(part) {
        if part in seen {
          assert FirstWrong(parts, i);
          return Err(Duplicate(part));
        }
        seen := seen[part := true];
        match part
        case "CmdOrCtrl" => p := p.(cmdOrCtrl := true);
        case "Alt" => p := p.(alt := true);
        case _ => p := p.(shift := true);
      } else if i == |parts| - 1 {
        p := p.(key := part);
      } else {
        assert FirstWrong(parts, i);
        return Err(InvalidModifier(part));
      }
    }
    assert parts[..|parts|] == parts;
    r := Ok(p);
  }

  method Parse(shortcut: string) returns (r: Result<Shortcut, Error>)
    ensures r.Ok? <==> Parsed(shortcut).Some?
    ensures r.Ok? ==> Parsed(shortcut) == Some(r.value)
    ensures r.Err? ==> Explains(Split(shortcut, '+'), shortcut, r.error)
  {
    if shortcut == "" {
      return Err(Empty);
    }
    var parts := Split(shortcut, '+');
    if |parts| < 2 {
      return Err(TooShort);
    }
    ReadableAccepted(parts);
    var p := ReadParts(parts);
    if p.Err? {
      return p;
    }
    if p.value.key == "" {
      return Err(NoKey);
    }
    assert !Wrong(parts, 0);
    assert IsModifier(parts[0]) && parts[0] in parts;
    if !p.value.cmdOrCtrl && !p.value.alt && !p.value.shift {
      return Err(NoModifier);
    }
    r := p;
  }

  /** When each error is returned; NoModifier never is. */
  ghost predicate Explains(parts: seq<string>, shortcut: string, e: Error)
    requires parts != []
  {
    match e
    case Empty => shortcut == ""
    case TooShort => shortcut != "" && |parts| < 2
    case NoKey => |parts| >= 2 && Readable(parts) && (Key(parts) == "" || IsModifier(Key(parts)))
    case NoModifier => false
    case _ => |parts| >= 2 && Faults(parts, e)
  }

  lemma ReadableAccepted(parts: seq<string>)
    requires |parts| >= 2
    ensures Accepted(parts) <==> Readable(parts) && Key(parts) != "" && !IsModifier(Key(parts))
  {
    var n := |parts| - 1;
    if Readable(parts) {
      forall i | 0 <= i < n
        ensures IsModifier(parts[i]) && parts[i] !in parts[..i]
      {
        assert !Wrong(parts, i);
      }
      forall i, j | 0 <= i < j < n
        ensures parts[i] != parts[j]
      {
        assert parts[i] == parts[..j][i];
      }
    }
  }

  /** Every string is accepted, or has one error and no other. */
  lemma ErrorsAreExact(s: string, e: Error, e': Error)
    ensures Explains(Split(s, '+'), s, e) ==> Parsed(s) == None
    ensures Explains(Split(s, '+'), s, e) && Explains(Split(s, '+'), s, e') ==> e == e'
  {
    var parts := Split(s, '+');
    if |parts| >= 2 {
      ReadableAccepted(parts);
    }
    if Faults(parts, e) && Faults(parts, e') {
      var i: nat :| FirstWrong(parts, i) && e == Fault(parts, i);
      var j: nat :| FirstWrong(parts, j) && e' == Fault(parts, j);
      assert i == j;
    }
  }

  function Parts(p: Shortcut): seq<string> {
    (if p.cmdOrCtrl then ["CmdOrCtrl"] else []) + (if p.alt then ["Alt"] else [])
      + (if p.shift then ["Shift"] else []) + [p.key]
  }

  method FormatShortcut(p: Shortcut) returns (s: string)
    ensures s == Format(p)
  {
    var parts := [];
    if p.cmdOrCtrl { parts := parts + ["CmdOrCtrl"]; }
    if p.alt { parts := parts + ["Alt"]; }
    if p.shift { parts := parts + ["Shift"]; }
    parts := parts + [p.key];
    assert parts == Parts(p);
    s := Join(parts, '+');
  }

  function Format(p: Shortcut): string {
    Join(Parts(p), '+')
  }

  /** The order is always CmdOrCtrl, Alt, Shift, key. */
  lemma FormatSpells(p: Shortcut)
    ensures Format(p) == (if p.cmdOrCtrl then "CmdOrCtrl+" else "") + (if p.alt then "Alt+" else "")
                         + (if p.shift then "Shift+" else "") + p.key
  {
    var parts := Parts(p);
    JoinParts(parts);
    if |parts| > 1 { JoinParts(parts[1..]); }
    if |parts| > 2 { JoinParts(parts[2..]); }
    if |parts| > 3 { JoinParts(parts[3..]); }
  }

  lemma JoinParts(parts: seq<string>)
    requires parts != []
    ensures Join(parts, '+') == if |parts| == 1 then parts[0] else parts[0] + "+" + Join(parts[1..], '+')
  {}

  // ----- theorems -----

  /** A modifier, and a key that Split leaves whole and that is no modifier name. */
  predicate Producible(p: Shortcut) {
    (p.cmdOrCtrl || p.alt || p.shift) && p.key != "" && '+' !in p.key && !IsModifier(p.key)
  }

  lemma ParsedIsProducible(s: string)
    ensures Parsed(s).Some? ==> Producible(Parsed(s).value)
  {
    SplitIsFree(s, '+');
    var parts := Split(s, '+');
    if Accepted(parts) {
      assert parts[0] in parts && IsModifier(parts[0]);
    }
  }

  /** Parse reads back what Format prints, for exactly the shortcuts Parse can produce. */
  lemma ParseFormat(p: Shortcut)
    ensures Parsed(Format(p)) == Some(p) <==> Producible(p)
    ensures Producible(p) <==> exists s :: Parsed(s) == Some(p)
  {
    if Producible(p) {
      var parts := Parts(p);
      PartsAreFree(p);
      SplitJoin(parts, '+');
      PartsMean(p);
    }
    forall s | Parsed(s) == Some(p)
      ensures Producible(p)
    {
      ParsedIsProducible(s);
    }
  }

  lemma PartsAreFree(p: Shortcut)
    requires Producible(p)
    ensures Free(Parts(p), '+')
  {}

  lemma PartsMean(p: Shortcut)
    requires Producible(p)
    ensures Accepted(Parts(p)) && Meaning(Parts(p)) == p
  {
    var parts := Parts(p);
    if p.cmdOrCtrl { assert parts[0] == "CmdOrCtrl"; }
    if p.alt { assert parts[if p.cmdOrCtrl then 1 else 0] == "Alt"; }
    if p.shift { assert parts[|parts| - 2] == "Shift"; }
  }

  ghost function Normal(s: string): Option<string> {
    if Parsed(s).Some? then Some(Format(Parsed(s).value)) else None
  }

  method Normalize(shortcut: string) returns (r: Result<string, Error>)
    ensures r.Ok? <==> Normal(shortcut).Some?
    ensures r.Ok? ==> Normal(shortcut) == Some(r.value)
    ensures r.Err? ==> Explains(Split(shortcut, '+'), shortcut, r.error)
  {
    var p := Parse(shortcut);
    if p.Err? {
      return Err(p.error);
    }
    var s := FormatShortcut(p.value);
    r := Ok(s);
  }

  /** A normal form is its own normal form, and keeps the meaning. */
  lemma NormalizeIdempotent(s: string)
    requires Normal(s).Some?
    ensures Normal(Normal(s).value) == Normal(s) && Parsed(Normal(s).value) == Parsed(s)
  {
    ParsedIsProducible(s);
    ParseFormat(Parsed(s).value);
  }

  ghost function ModifiersOf(s: string): set<string> {
    set part | part in Split(s, '+') && IsModifier(part)
  }

  /** Accepted strings normalise equally exactly when they have the same modifiers, in any order, and the same key. */
  lemma NormalFormsAgree(s: string, t: string)
    requires Normal(s).Some? && Normal(t).Some?
    ensures Normal(s) == Normal(t) <==> Parsed(s) == Parsed(t)
    ensures Normal(s) == Normal(t) <==> ModifiersOf(s) == ModifiersOf(t) && Key(Split(s, '+')) == Key(Split(t, '+'))
  {
    NormalizeIdempotent(s);
    NormalizeIdempotent(t);
    assert forall m :: IsModifier(m) ==> (m in ModifiersOf(s) <==> m in Split(s, '+'));
    assert forall m :: IsModifier(m) ==> (m in ModifiersOf(t) <==> m in Split(t, '+'));
    if Parsed(s) == Parsed(t) {
      assert forall m :: m in ModifiersOf(s) <==> m in ModifiersOf(t);
    }
  }

  // ----- conflicts -----

  datatype Binding = Binding(actionId: string, shortcut: string)

  /** What DetectConflict compares: the normal form, or the string itself when it does not parse. */
  ghost function Compared(s: string): string {
    if Normal(s).Some? then Normal(s).value else s
  }

  /** The same shortcut, or the same unreadable text. */
  ghost predicate Same(s: string, t: string) {
    if Parsed(s).Some? then Parsed(s) == Parsed(t) else s == t
  }

  lemma ComparedAgree(s: string, t: string)
    ensures Compared(s) == Compared(t) <==> Same(s, t)
  {
    if Normal(s).Some? { NormalizeIdempotent(s); }
    if Normal(t).Some? { NormalizeIdempotent(t); }
  }

  ghost predicate Clashes(bindings: seq<Binding>, actionId: string, shortcut: string, k: int) {
    0 <= k < |bindings| && bindings[k].actionId != actionId && Same(shortcut, bindings[k].shortcut)
  }

  ghost predicate FirstClash(bindings: seq<Binding>, actionId: string, shortcut: string, k: int) {
    Clashes(bindings, actionId, shortcut, k) && forall j :: 0 <= j < k ==> !Clashes(bindings, actionId, shortcut, j)
  }

  /** A conflict is another action bound to the same shortcut; the first such action is reported. */
  method DetectConflict(bindings: seq<Binding>, actionId: string, shortcut: string) returns (other: Option<string>)
    ensures other.Some? <==> shortcut != "" && exists k :: Clashes(bindings, actionId, shortcut, k)
    ensures other.Some? ==> exists k :: FirstClash(bindings, actionId, shortcut, k) && bindings[k].actionId == other.value
  {
    if shortcut == "" {
      return None;
    }
    var n := Normalize(shortcut);
    var normalized := if n.Ok? then n.value else shortcut;
    for i := 0 to |bindings|
      invariant forall j :: 0 <= j < i ==> !Clashes(bindings, actionId, shortcut, j)
    {
      if bindings[i].actionId != actionId {
        var e := Normalize(bindings[i].shortcut);
        var existing := if e.Ok? then e.value else bindings[i].shortcut;
        ComparedAgree(shortcut, bindings[i].shortcut);
        if existing == normalized {
          assert FirstClash(bindings, actionId, shortcut, i);
          return Some(bindings[i].actionId);
        }
      }
    }
    other := None;
  }
}

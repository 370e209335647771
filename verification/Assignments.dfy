/** Conditional writes to the data of a config map, and the flag that they set: the flag
    decides whether the map is stored and its deployments are rolled. */
module Assignments {
  import opened Text
  import opened Objects

  /** One write that may happen; `Skip` stands for one that is not asked for. */
  datatype Assign = Skip | Put(key: string, value: string) | PutIfEmpty(key: string, value: string)

  /** An entry counts as changed only if it reads differently: an absent one reads as empty. */
  function Applied(data: Dict, a: Assign): Dict {
    match a
    case Skip => data
    case Put(key, value) => if Lookup(data, key) != value then data[key := value] else data
    case PutIfEmpty(key, value) => if Lookup(data, key) == "" then data[key := value] else data
  }

  /** Whether the write happens, which is what sets the flag. */
  predicate Writes(data: Dict, a: Assign) {
    match a
    case Skip => false
    case Put(key, value) => Lookup(data, key) != value
    case PutIfEmpty(key, _) => Lookup(data, key) == ""
  }

  function AppliedAll(data: Dict, assigns: seq<Assign>): Dict
    decreases |assigns|
  {
    if assigns == [] then data else AppliedAll(Applied(data, assigns[0]), assigns[1..])
  }

  predicate Flagged(data: Dict, assigns: seq<Assign>)
    decreases |assigns|
  {
    assigns != [] && (Writes(data, assigns[0]) || Flagged(Applied(data, assigns[0]), assigns[1..]))
  }

  /** What is written when an entry is empty is not itself empty. */
  predicate Proper(assigns: seq<Assign>) {
    forall a | a in assigns :: a.PutIfEmpty? ==> a.value != ""
  }

  predicate Touches(a: Assign, key: string) {
    !a.Skip? && a.key == key
  }

  predicate HasPut(assigns: seq<Assign>, key: string) {
    exists a :: a in assigns && a.Put? && a.key == key
  }

  /** The two writes can both find the entry as they want it: unconditional ones write the
      same value, and one that shares its entry with a conditional one does not write the
      empty value. */
  predicate Agree(a: Assign, b: Assign) {
    a.Skip? || b.Skip? || a.key != b.key
    || match (a, b)
       case (Put(_, v), Put(_, w)) => v == w
       case (Put(_, v), _) => v != ""
       case (_, Put(_, w)) => w != ""
       case _ => true
  }

  predicate Consistent(assigns: seq<Assign>) {
    forall a, b | a in assigns && b in assigns :: Agree(a, b)
  }

  // ---- One list after another ----------------------------------------------

  lemma {:induction false} AppliedInTwo(data: Dict, a: seq<Assign>, b: seq<Assign>)
    ensures AppliedAll(data, a + b) == AppliedAll(AppliedAll(data, a), b)
    ensures Flagged(data, a + b) <==> Flagged(data, a) || Flagged(AppliedAll(data, a), b)
    decreases |a|
  {
    if a == [] {
      assert a + b == b;
    } else {
      assert (a + b)[1..] == a[1..] + b;
      AppliedInTwo(Applied(data, a[0]), a[1..], b);
    }
  }

  lemma AppliedInThree(data: Dict, a: seq<Assign>, b: seq<Assign>, c: seq<Assign>)
    ensures AppliedAll(data, a + b + c) == AppliedAll(AppliedAll(AppliedAll(data, a), b), c)
    ensures Flagged(data, a + b + c)
       <==> Flagged(data, a) || Flagged(AppliedAll(data, a), b) || Flagged(AppliedAll(AppliedAll(data, a), b), c)
  {
    AppliedInTwo(data, a, b);
    AppliedInTwo(data, a + b, c);
  }

  // ---- The quiet pass ------------------------------------------------------

  /** An unset flag means that nothing was written. */
  lemma {:induction false} QuietMeansUnchanged(data: Dict, assigns: seq<Assign>)
    requires !Flagged(data, assigns)
    ensures AppliedAll(data, assigns) == data
    decreases |assigns|
  {
    if assigns != [] {
      assert Applied(data, assigns[0]) == data;
      QuietMeansUnchanged(data, assigns[1..]);
    }
  }

  /** A pass is quiet exactly when every single write finds its entry as it wants it. */
  lemma {:induction false} QuietIffNoneWrites(data: Dict, assigns: seq<Assign>)
    ensures !Flagged(data, assigns) <==> forall a | a in assigns :: !Writes(data, a)
    decreases |assigns|
  {
    if assigns != [] {
      var head, rest := assigns[0], assigns[1..];
      assert forall a :: a in assigns <==> a == head || a in rest;
      if !Writes(data, head) {
        assert Applied(data, head) == data;
        QuietIffNoneWrites(data, rest);
      }
    }
  }

  /** So any quiet pass shows that the writes agree. */
  lemma QuietMeansConsistent(data: Dict, assigns: seq<Assign>)
    requires !Flagged(data, assigns)
    ensures Consistent(assigns)
  {
    hide Flagged;
    QuietIffNoneWrites(data, assigns);
  }

  // ---- After a pass of writes that agree -----------------------------------

  predicate AgreeOn(assigns: seq<Assign>, key: string, value: string) {
    forall a | a in assigns && Touches(a, key) :: if a.Put? then a.value == value else value != ""
  }

  lemma {:induction false} AgreedValueHolds(data: Dict, assigns: seq<Assign>, key: string, value: string)
    requires AgreeOn(assigns, key, value)
    requires HasPut(assigns, key) || Lookup(data, key) == value
    ensures Lookup(AppliedAll(data, assigns), key) == value
    decreases |assigns|
  {
    if assigns != [] {
      var head, rest := assigns[0], assigns[1..];
      assert head in assigns;
      assert forall a :: a in assigns <==> a == head || a in rest;
      AgreedValueHolds(Applied(data, head), rest, key, value);
    }
  }

  lemma {:induction false} NonEmptyHolds(data: Dict, assigns: seq<Assign>, key: string)
    requires Proper(assigns) && !HasPut(assigns, key)
    requires (exists a :: a in assigns && Touches(a, key)) || Lookup(data, key) != ""
    ensures Lookup(AppliedAll(data, assigns), key) != ""
    decreases |assigns|
  {
    if assigns != [] {
      var head, rest := assigns[0], assigns[1..];
      assert head in assigns;
      assert forall a :: a in assigns <==> a == head || a in rest;
      NonEmptyHolds(Applied(data, head), rest, key);
    }
  }

  /** When the writes agree, every one of them finds its entry as it wants it after a pass. */
  lemma NoneWritesAgain(data: Dict, assigns: seq<Assign>, a: Assign)
    requires Proper(assigns) && Consistent(assigns) && a in assigns
    ensures !Writes(AppliedAll(data, assigns), a)
  {
    hide AppliedAll;
    if !a.Skip? {
      if p :| p in assigns && p.Put? && p.key == a.key {
        forall b | b in assigns && Touches(b, a.key)
          ensures if b.Put? then b.value == p.value else p.value != ""
        {
          assert Agree(p, b);
        }
        AgreedValueHolds(data, assigns, a.key, p.value);
        assert Agree(p, a);
      } else {
        assert Touches(a, a.key);
        NonEmptyHolds(data, assigns, a.key);
      }
    }
  }

  /** A second pass is quiet exactly when the writes agree, whatever the data. */
  lemma SecondPassQuietIffConsistent(data: Dict, assigns: seq<Assign>)
    requires Proper(assigns)
    ensures !Flagged(AppliedAll(data, assigns), assigns) <==> Consistent(assigns)
  {
    hide Flagged, AppliedAll, Consistent, Proper, Writes;
    var once := AppliedAll(data, assigns);
    QuietIffNoneWrites(once, assigns);
    if Consistent(assigns) {
      forall a | a in assigns {
        NoneWritesAgain(data, assigns, a);
      }
    } else if !Flagged(once, assigns) {
      QuietMeansConsistent(once, assigns);
    }
  }

  // ---- A second pass never changes the data --------------------------------

  function Read(data: Dict, key: string): Option<string> {
    if key in data then Some(data[key]) else None
  }

  /** The history of one entry through the assignments. */
  function Traced(x: Option<string>, assigns: seq<Assign>, key: string): Option<string>
    decreases |assigns|
  {
    if assigns == [] then x else Traced(Stepped(x, assigns[0], key), assigns[1..], key)
  }

  function Stepped(x: Option<string>, a: Assign, key: string): Option<string> {
    if !Touches(a, key) then x
    else if a.Put? then (if x.GetOr("") != a.value then Some(a.value) else x)
    else if x.GetOr("") == "" then Some(a.value) else x
  }

  lemma {:induction false} ReadIsTraced(data: Dict, assigns: seq<Assign>, key: string)
    ensures Read(AppliedAll(data, assigns), key) == Traced(Read(data, key), assigns, key)
    decreases |assigns|
  {
    if assigns != [] {
      ReadIsTraced(Applied(data, assigns[0]), assigns[1..], key);
      assert Read(Applied(data, assigns[0]), key) == Stepped(Read(data, key), assigns[0], key);
    }
  }

  lemma {:induction false} TraceFollowsValue(x: Option<string>, y: Option<string>, assigns: seq<Assign>, key: string)
    requires x.GetOr("") == y.GetOr("")
    ensures Traced(x, assigns, key).GetOr("") == Traced(y, assigns, key).GetOr("")
    decreases |assigns|
  {
    if assigns != [] {
      TraceFollowsValue(Stepped(x, assigns[0], key), Stepped(y, assigns[0], key), assigns[1..], key);
    }
  }

  /** An unconditional write makes the outcome independent of the start. */
  lemma {:induction false} PutDecides(x: Option<string>, y: Option<string>, assigns: seq<Assign>, key: string)
    requires HasPut(assigns, key)
    ensures Traced(x, assigns, key).GetOr("") == Traced(y, assigns, key).GetOr("")
    decreases |assigns|
  {
    var x', y' := Stepped(x, assigns[0], key), Stepped(y, assigns[0], key);
    assert forall a :: a in assigns <==> a == assigns[0] || a in assigns[1..];
    if HasPut(assigns[1..], key) {
      PutDecides(x', y', assigns[1..], key);
    } else {
      TraceFollowsValue(x', y', assigns[1..], key);
    }
  }

  lemma {:induction false} TraceKeepsPresence(x: Option<string>, assigns: seq<Assign>, key: string)
    ensures x.Some? ==> Traced(x, assigns, key).Some?
    decreases |assigns|
  {
    if assigns != [] {
      TraceKeepsPresence(Stepped(x, assigns[0], key), assigns[1..], key);
    }
  }

  /** Without an unconditional write, a value that is there stays. */
  lemma {:induction false} ConditionalWritesKeepValues(x: Option<string>, assigns: seq<Assign>, key: string)
    requires !HasPut(assigns, key) && Proper(assigns)
    ensures x.GetOr("") != "" ==> Traced(x, assigns, key) == x
    ensures Traced(x, assigns, key) == x || Traced(x, assigns, key).GetOr("") != ""
    decreases |assigns|
  {
    if assigns != [] {
      assert assigns[0] in assigns && forall a | a in assigns[1..] :: a in assigns;
      ConditionalWritesKeepValues(Stepped(x, assigns[0], key), assigns[1..], key);
    }
  }

  lemma TraceIsIdempotent(x: Option<string>, assigns: seq<Assign>, key: string)
    requires Proper(assigns)
    ensures var y := Traced(x, assigns, key); Traced(y, assigns, key) == y
  {
    var y := Traced(x, assigns, key);
    hide Traced, HasPut, Proper;
    if HasPut(assigns, key) {
      PutDecides(x, y, assigns, key);
      TraceKeepsPresence(x, assigns, key);
      TraceKeepsPresence(y, assigns, key);
    } else {
      ConditionalWritesKeepValues(x, assigns, key);
      ConditionalWritesKeepValues(y, assigns, key);
    }
  }

  lemma SameReadsSameData(a: Dict, b: Dict)
    requires forall key: string :: Read(a, key) == Read(b, key)
    ensures a == b
  {
    forall key: string
      ensures key in a <==> key in b
      ensures key in a ==> a[key] == b[key]
    {
      assert Read(a, key) == Read(b, key);
    }
  }

  /** A second pass over the data gives the same data, even when the writes disagree. */
  lemma SecondPassChangesNothing(data: Dict, assigns: seq<Assign>)
    requires Proper(assigns)
    ensures var once := AppliedAll(data, assigns); AppliedAll(once, assigns) == once
  {
    hide Proper, AppliedAll, Traced;
    var once := AppliedAll(data, assigns);
    var twice := AppliedAll(once, assigns);
    forall key: string
      ensures Read(twice, key) == Read(once, key)
    {
      ReadIsTraced(data, assigns, key);
      ReadIsTraced(once, assigns, key);
      TraceIsIdempotent(Read(data, key), assigns, key);
    }
    SameReadsSameData(once, twice);
  }

  /** The flag tells for all data whether they change, exactly when the writes agree. When
      they do not, it is set on the data that a first pass leaves, which stay the same. */
  lemma FlagExactIffConsistent(assigns: seq<Assign>)
    requires Proper(assigns)
    ensures (forall data: Dict :: Flagged(data, assigns) <==> AppliedAll(data, assigns) != data)
       <==> Consistent(assigns)
  {
    hide Proper, Flagged, AppliedAll, Consistent;
    forall data: Dict
      ensures !Flagged(data, assigns) ==> AppliedAll(data, assigns) == data
      ensures Consistent(assigns) && AppliedAll(data, assigns) == data ==> !Flagged(data, assigns)
    {
      SecondPassQuietIffConsistent(data, assigns);
      if !Flagged(data, assigns) {
        QuietMeansUnchanged(data, assigns);
      }
    }
    var once := AppliedAll(map[], assigns);
    SecondPassChangesNothing(map[], assigns);
    SecondPassQuietIffConsistent(map[], assigns);
    assert !Consistent(assigns) ==> Flagged(once, assigns) && AppliedAll(once, assigns) == once;
  }

  // ---- One entry -----------------------------------------------------------

  /** The last unconditional write to an entry decides what it reads, whatever it held. */
  lemma LastWriteHolds(data: Dict, assigns: seq<Assign>, i: nat, key: string, value: string)
    requires i < |assigns| && assigns[i] == Put(key, value)
    requires forall j | i < j < |assigns| :: !Touches(assigns[j], key)
    ensures Lookup(AppliedAll(data, assigns), key) == value
  {
    hide AppliedAll;
    var front, back := assigns[..i], assigns[i..];
    assert assigns == front + back;
    AppliedInTwo(data, front, back);
    assert back[0] == Put(key, value) && back[0] in back;
    AgreedValueHolds(AppliedAll(data, front), back, key, value);
  }

  /** An entry that no write is about stays. */
  lemma {:induction false} UntouchedStays(data: Dict, assigns: seq<Assign>, key: string)
    requires forall a | a in assigns :: !Touches(a, key)
    ensures Read(AppliedAll(data, assigns), key) == Read(data, key)
    decreases |assigns|
  {
    if assigns != [] {
      assert assigns[0] in assigns && forall a | a in assigns[1..] :: a in assigns;
      UntouchedStays(Applied(data, assigns[0]), assigns[1..], key);
    }
  }

  /** A conditional write that nothing else interferes with fills an empty entry only. */
  lemma ConditionalWriteHolds(data: Dict, assigns: seq<Assign>, i: nat, key: string, value: string)
    requires i < |assigns| && assigns[i] == PutIfEmpty(key, value)
    requires forall j | 0 <= j < |assigns| && j != i :: !Touches(assigns[j], key)
    ensures Lookup(AppliedAll(data, assigns), key) == if Lookup(data, key) == "" then value else Lookup(data, key)
  {
    var front, back := assigns[..i], assigns[i + 1..];
    assert assigns == front + ([assigns[i]] + back);
    assert [assigns[i]][1..] == [];
    AppliedInTwo(data, front, [assigns[i]] + back);
    AppliedInTwo(AppliedAll(data, front), [assigns[i]], back);
    UntouchedStays(data, front, key);
    var mid := AppliedAll(data, front);
    assert AppliedAll(mid, [assigns[i]]) == Applied(mid, assigns[i]);
    UntouchedStays(Applied(mid, assigns[i]), back, key);
    hide AppliedAll;
    assert Lookup(mid, key) == Lookup(data, key);
  }

  lemma {:induction false} EntriesStay(data: Dict, assigns: seq<Assign>)
    ensures data.Keys <= AppliedAll(data, assigns).Keys
    decreases |assigns|
  {
    if assigns != [] {
      EntriesStay(Applied(data, assigns[0]), assigns[1..]);
    }
  }

  /** Where there are no data, a set flag means that an entry was added. */
  lemma {:induction false} FlagFillsEmptyData(assigns: seq<Assign>)
    ensures Flagged(map[], assigns) <==> AppliedAll(map[], assigns) != map[]
    decreases |assigns|
  {
    if assigns != [] {
      var next := Applied(map[], assigns[0]);
      if Writes(map[], assigns[0]) {
        assert assigns[0].key in next;
        EntriesStay(next, assigns[1..]);
        assert assigns[0].key in AppliedAll(next, assigns[1..]).Keys;
      } else {
        FlagFillsEmptyData(assigns[1..]);
      }
    }
  }
}

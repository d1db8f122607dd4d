/** The part-status table (`partStatuses`): an ordered list of (location, detached)
    entries that the server rewrites and the clients read to remove parts. */
module PartStatuses {
  import opened Wrappers
  import opened Vectors
  import opened Search

  /** `PartStatusResponse`. */
  datatype PartStatus = PartStatus(location: Vec2, detached: bool)
  {
    /** `IEquatable<PartStatusResponse>.Equals`: only the locations are compared. */
    predicate Equals(other: PartStatus)
    {
      location == other.location
    }
  }

  type AbilityId = nat

  /** A part of a core as `NetworkGetParts()` lists it: its blueprint location and the
      `Ability` component on it, if any. The list holds None for a destroyed part. */
  datatype ShellPart = ShellPart(location: Vec2, ability: Option<AbilityId>)

  predicate UniqueLocations(t: seq<PartStatus>)
  {
    forall i, j :: 0 <= i < j < |t| ==> t[i].location != t[j].location
  }

  /** `ServerDetachPart(part)` on the table: the first entry at `loc` is replaced by a
      detached entry at `loc`; with no entry at `loc` the table is untouched. */
  function Detach(t: seq<PartStatus>, loc: Vec2): (r: seq<PartStatus>)
    ensures |r| == |t|
    ensures forall j :: 0 <= j < |t| ==> r[j].location == t[j].location
    ensures (forall j :: 0 <= j < |t| ==> t[j].location != loc) ==> r == t
    ensures forall i :: 0 <= i < |t| && t[i].location == loc && (forall j :: 0 <= j < i ==> t[j].location != loc) ==>
              r[i] == PartStatus(loc, true) && forall j :: 0 <= j < |t| && j != i ==> r[j] == t[j]
  {
    match FirstWhere(t, (e: PartStatus) => e.location == loc)
    case None => t
    case Some(i) => t[i := PartStatus(loc, true)]
  }

  /** `ServerResetParts()` on the table: every entry detached, locations kept. */
  function ResetAll(t: seq<PartStatus>): (r: seq<PartStatus>)
    ensures |r| == |t|
    ensures forall j :: 0 <= j < |t| ==> r[j].location == t[j].location && r[j].detached
  {
    seq(|t|, j requires 0 <= j < |t| => PartStatus(t[j].location, true))
  }

  /** Detaching the same location twice is the same as detaching it once. */
  lemma DetachIdempotent(t: seq<PartStatus>, loc: Vec2)
    ensures Detach(Detach(t, loc), loc) == Detach(t, loc)
  {
    var p := (e: PartStatus) => e.location == loc;
    match FirstWhere(t, p)
    case None =>
    case Some(i) =>
      var r := Detach(t, loc);
      assert r[i] == PartStatus(loc, true);
      assert r[i := PartStatus(loc, true)] == r;
  }

  /** Resetting twice is the same as resetting once. */
  lemma ResetIdempotent(t: seq<PartStatus>)
    ensures ResetAll(ResetAll(t)) == ResetAll(t)
  {
  }

  /** Once the table has been reset, a detach changes nothing. */
  lemma DetachAfterReset(t: seq<PartStatus>, loc: Vec2)
    ensures Detach(ResetAll(t), loc) == ResetAll(t)
  {
    var r := ResetAll(t);
    match FirstWhere(r, (e: PartStatus) => e.location == loc)
    case None =>
    case Some(i) =>
      assert r[i] == PartStatus(loc, true);
      assert r[i := PartStatus(loc, true)] == r;
  }

  /** Detachment is one-way: neither operation turns a detached entry back. */
  lemma NeverReattached(t: seq<PartStatus>, loc: Vec2, j: nat)
    requires j < |t| && t[j].detached
    ensures Detach(t, loc)[j].detached && ResetAll(t)[j].detached
  {
  }

  /** Both operations keep the locations unique when they were. */
  lemma UniquenessPreserved(t: seq<PartStatus>, loc: Vec2)
    requires UniqueLocations(t)
    ensures UniqueLocations(Detach(t, loc)) && UniqueLocations(ResetAll(t))
  {
  }

  /** The entry `ServerDetachPart` writes Equals (by `PartStatusResponse.Equals`) the entry
      it replaces, because that predicate ignores the flag. */
  lemma DetachWriteEqualsReplaced(t: seq<PartStatus>, loc: Vec2, i: nat)
    requires i < |t|
    ensures Detach(t, loc)[i].Equals(t[i])
  {
  }

  predicate PartAt(p: Option<ShellPart>, loc: Vec2)
  {
    p.Some? && p.value.location == loc
  }

  /** `core.NetworkGetParts().Find(p => p && p.info.location == loc)`, as an index. */
  function FindPart(parts: seq<Option<ShellPart>>, loc: Vec2): (r: Option<nat>)
    ensures r.Some? ==> r.value < |parts| && PartAt(parts[r.value], loc)
    ensures r.Some? ==> forall j :: 0 <= j < r.value ==> !PartAt(parts[j], loc)
    ensures r.None? ==> forall j :: 0 <= j < |parts| ==> !PartAt(parts[j], loc)
  {
    FirstWhere(parts, (p: Option<ShellPart>) => PartAt(p, loc))
  }

  /** A part still present on the core although some detached entry names its location. */
  predicate IsPending(t: seq<PartStatus>, p: Option<ShellPart>)
  {
    p.Some? && exists i :: 0 <= i < |t| && t[i].detached && t[i].location == p.value.location
  }

  predicate HasPresentPart(parts: seq<Option<ShellPart>>, e: PartStatus)
  {
    e.detached && FindPart(parts, e.location).Some?
  }

  /** The part one tick of `SyncUpParts` removes: the first present part at the location of
      the first detached entry, in table order, that still has a present part. */
  function PartToRemove(t: seq<PartStatus>, parts: seq<Option<ShellPart>>): (r: Option<nat>)
    ensures r.Some? ==> r.value < |parts| && IsPending(t, parts[r.value])
    ensures r.Some? ==> exists i :: 0 <= i < |t| && t[i].detached && r == FindPart(parts, t[i].location)
                          && forall j :: 0 <= j < i ==> !HasPresentPart(parts, t[j])
    ensures r.None? <==> forall k :: 0 <= k < |parts| ==> !IsPending(t, parts[k])
  {
    match FirstWhere(t, (e: PartStatus) => HasPresentPart(parts, e))
    case None =>
      assert forall k :: 0 <= k < |parts| ==> !IsPending(t, parts[k]) by {
        forall k, i | 0 <= k < |parts| && 0 <= i < |t| && t[i].detached
          ensures !PartAt(parts[k], t[i].location)
        {
          assert !HasPresentPart(parts, t[i]);
        }
      }
      None
    case Some(i) => FindPart(parts, t[i].location)
  }

  function RemoveAt<T>(s: seq<T>, k: nat): (r: seq<T>)
    requires k < |s|
    ensures |r| == |s| - 1
  {
    s[..k] + s[k + 1..]
  }

  /** How many present parts are waiting to be removed. */
  function Pending(t: seq<PartStatus>, parts: seq<Option<ShellPart>>): nat
  {
    if |parts| == 0 then 0
    else Pending(t, parts[..|parts| - 1]) + (if IsPending(t, parts[|parts| - 1]) then 1 else 0)
  }

  lemma {:induction false} PendingAppend(t: seq<PartStatus>, a: seq<Option<ShellPart>>, b: seq<Option<ShellPart>>)
    ensures Pending(t, a + b) == Pending(t, a) + Pending(t, b)
    decreases |b|
  {
    if |b| == 0 {
      assert a + b == a;
    } else {
      var b' := b[..|b| - 1];
      assert (a + b)[..|a + b| - 1] == a + b';
      PendingAppend(t, a, b');
    }
  }

  lemma {:induction false} PendingZero(t: seq<PartStatus>, parts: seq<Option<ShellPart>>)
    requires forall k :: 0 <= k < |parts| ==> !IsPending(t, parts[k])
    ensures Pending(t, parts) == 0
    decreases |parts|
  {
    if |parts| > 0 {
      PendingZero(t, parts[..|parts| - 1]);
    }
  }

  /** Each tick of `SyncUpParts` that removes a part removes exactly one pending part, and a
      tick that removes nothing leaves nothing pending: repeated ticks remove every part whose
      entry is detached, each exactly once. */
  lemma SyncProgress(t: seq<PartStatus>, parts: seq<Option<ShellPart>>)
    ensures PartToRemove(t, parts).None? ==> Pending(t, parts) == 0
    ensures PartToRemove(t, parts).Some? ==>
              Pending(t, RemoveAt(parts, PartToRemove(t, parts).value)) == Pending(t, parts) - 1
  {
    match PartToRemove(t, parts)
    case None => PendingZero(t, parts);
    case Some(k) =>
      assert parts == parts[..k] + [parts[k]] + parts[k + 1..];
      PendingAppend(t, parts[..k] + [parts[k]], parts[k + 1..]);
      PendingAppend(t, parts[..k], [parts[k]]);
      PendingAppend(t, parts[..k], parts[k + 1..]);
      assert Pending(t, [parts[k]]) == 1 by {
        assert [parts[k]][..0] == [];
      }
  }
}

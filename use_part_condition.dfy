/** `UsePartCondition`: a quest condition that completes once the player's blueprint holds
    enough copies of a given part. */
module UsePartConditions {

  datatype ConditionState = Uninitialized | Listening | Completed

  /** A part entry of the player's blueprint. */
  datatype BlueprintPart = BlueprintPart(partID: string, abilityID: int)

  predicate IsMatch(p: BlueprintPart, partID: string, abilityID: int)
  {
    p.partID == partID && p.abilityID == abilityID
  }

  /** How many parts of `parts` match. */
  function MatchCount(parts: seq<BlueprintPart>, partID: string, abilityID: int): nat
  {
    if |parts| == 0 then 0
    else MatchCount(parts[..|parts| - 1], partID, abilityID) + (if IsMatch(parts[|parts| - 1], partID, abilityID) then 1 else 0)
  }

  /** How many matches `CheckParts` skips before it completes: `partCount - 1` with a
      custom count, none otherwise. */
  function Skips(useCustomCount: bool, partCount: int): nat
  {
    if useCustomCount && partCount > 1 then partCount - 1 else 0
  }

  /** What the loop of `CheckParts` has done so far: the local `count`, the number of
      `Calculate` calls, the number of `RemoveOrigin` calls, and whether it set `Completed`. */
  datatype Tally = Tally(count: nat, fires: nat, removals: nat, completed: bool)

  /** One iteration of the loop. */
  function Step(t: Tally, p: BlueprintPart, partID: string, abilityID: int, sectorName: string,
                useCustomCount: bool, partCount: int): Tally
  {
    if !IsMatch(p, partID, abilityID) then t
    else
      var removals := t.removals + (if sectorName != "" then 1 else 0);
      if useCustomCount && t.count < partCount - 1 then t.(count := t.count + 1, removals := removals)
      else t.(fires := t.fires + 1, removals := removals, completed := true)
  }

  /** The loop run over `parts`, iteration by iteration. */
  function Scan(parts: seq<BlueprintPart>, partID: string, abilityID: int, sectorName: string,
                useCustomCount: bool, partCount: int): Tally
  {
    if |parts| == 0 then Tally(0, 0, 0, false)
    else Step(Scan(parts[..|parts| - 1], partID, abilityID, sectorName, useCustomCount, partCount),
              parts[|parts| - 1], partID, abilityID, sectorName, useCustomCount, partCount)
  }

  /** The loop's outcome in closed form, for m matching parts and s = Skips: the first
      min(m, s) matches are only counted, every later match fires `Calculate`, every match
      removes an origin when a sector is named, and the condition completes iff m > s. */
  lemma {:induction false} ScanClosedForm(parts: seq<BlueprintPart>, partID: string, abilityID: int,
                                          sectorName: string, useCustomCount: bool, partCount: int)
    ensures var m := MatchCount(parts, partID, abilityID);
            var s := Skips(useCustomCount, partCount);
            var skipped := if m < s then m else s;
            Scan(parts, partID, abilityID, sectorName, useCustomCount, partCount)
              == Tally(skipped, m - skipped, if sectorName != "" then m else 0, m > s)
    decreases |parts|
  {
    if |parts| > 0 {
      ScanClosedForm(parts[..|parts| - 1], partID, abilityID, sectorName, useCustomCount, partCount);
    }
  }

  /** The completion threshold: `max(1, partCount)` parts with a custom count, one without. */
  function Threshold(useCustomCount: bool, partCount: int): (n: nat)
    ensures n >= 1
    ensures useCustomCount && partCount >= 1 ==> n == partCount
    ensures !useCustomCount || partCount < 1 ==> n == 1
  {
    Skips(useCustomCount, partCount) + 1
  }

  /** The loop completes the condition iff at least `Threshold` parts match, and its local
      counter never exceeds `max(0, partCount - 1)` (zero without a custom count). */
  lemma CompletesAtThreshold(parts: seq<BlueprintPart>, partID: string, abilityID: int,
                             sectorName: string, useCustomCount: bool, partCount: int)
    ensures var t := Scan(parts, partID, abilityID, sectorName, useCustomCount, partCount);
            && (t.completed <==> MatchCount(parts, partID, abilityID) >= Threshold(useCustomCount, partCount))
            && (t.completed <==> t.fires > 0)
            && t.count <= Skips(useCustomCount, partCount)
            && (!useCustomCount ==> t.count == 0 && t.fires == MatchCount(parts, partID, abilityID))
  {
    ScanClosedForm(parts, partID, abilityID, sectorName, useCustomCount, partCount);
  }

  /** Parts that do not match change nothing: appending one leaves the outcome as it was. */
  lemma NonMatchingIgnored(parts: seq<BlueprintPart>, p: BlueprintPart, partID: string, abilityID: int,
                           sectorName: string, useCustomCount: bool, partCount: int)
    requires !IsMatch(p, partID, abilityID)
    ensures Scan(parts + [p], partID, abilityID, sectorName, useCustomCount, partCount)
              == Scan(parts, partID, abilityID, sectorName, useCustomCount, partCount)
  {
    assert (parts + [p])[..|parts + [p]| - 1] == parts;
  }

  class UsePartCondition {
    const partID: string
    const abilityID: int
    const sectorName: string
    const useCustomCount: bool
    const partCount: int

    var state: ConditionState
    /** Whether `CheckParts` is registered on `OnPlayerReconstruct`. */
    var listening: bool
    /** Calls of the successor's `Calculate()` and of `ShipBuilder.RemoveOrigin`, so far. */
    var calculations: nat
    var originRemovals: nat

    constructor (partID: string, abilityID: int, sectorName: string, useCustomCount: bool, partCount: int)
      ensures this.partID == partID && this.abilityID == abilityID && this.sectorName == sectorName
      ensures this.useCustomCount == useCustomCount && this.partCount == partCount
      ensures state == Uninitialized && !listening && calculations == 0 && originRemovals == 0
    {
      this.partID := partID;
      this.abilityID := abilityID;
      this.sectorName := sectorName;
      this.useCustomCount := useCustomCount;
      this.partCount := partCount;
      state := Uninitialized;
      listening := false;
      calculations := 0;
      originRemovals := 0;
    }

    /** `CheckParts`, given the player's blueprint parts and the answer of
        `ShipBuilder.CheckForOrigin(sectorName, (partID, abilityID))`. */
    method CheckParts(parts: seq<BlueprintPart>, originFound: bool)
      modifies this`state, this`calculations, this`originRemovals
      ensures var t := Scan(parts, partID, abilityID, sectorName, useCustomCount, partCount);
              if sectorName == "" || originFound then
                && state == (if t.completed then Completed else old(state))
                && calculations == old(calculations) + t.fires
                && originRemovals == old(originRemovals) + t.removals
              else
                state == old(state) && calculations == old(calculations) && originRemovals == old(originRemovals)
    {
      var count := 0;
      if sectorName == "" || originFound {
        var i := 0;
        while i < |parts|
          invariant 0 <= i <= |parts|
          invariant var t := Scan(parts[..i], partID, abilityID, sectorName, useCustomCount, partCount);
                    && count == t.count
                    && state == (if t.completed then Completed else old(state))
                    && calculations == old(calculations) + t.fires
                    && originRemovals == old(originRemovals) + t.removals
        {
          assert parts[..i + 1][..i] == parts[..i];
          if parts[i].partID == partID && parts[i].abilityID == abilityID {
            if sectorName != "" {
              originRemovals := originRemovals + 1;
            }
            if useCustomCount && count < partCount - 1 {
              count := count + 1;
              i := i + 1;
              continue;
            }
            state := Completed;
            calculations := calculations + 1;
          }
          i := i + 1;
        }
        assert parts[..|parts|] == parts;
      }
    }

    /** `Init`: register on `OnPlayerReconstruct`, start listening, and check at once. */
    method Init(index: int, parts: seq<BlueprintPart>, originFound: bool)
      modifies this`state, this`listening, this`calculations, this`originRemovals
      ensures listening
      ensures state == Listening || state == Completed
      ensures state == Completed <==>
                (sectorName == "" || originFound)
                && MatchCount(parts, partID, abilityID) >= Threshold(useCustomCount, partCount)
      ensures var t := Scan(parts, partID, abilityID, sectorName, useCustomCount, partCount);
              if sectorName == "" || originFound then
                calculations == old(calculations) + t.fires && originRemovals == old(originRemovals) + t.removals
              else
                calculations == old(calculations) && originRemovals == old(originRemovals)
    {
      listening := true;
      state := Listening;
      CheckParts(parts, originFound);
      CompletesAtThreshold(parts, partID, abilityID, sectorName, useCustomCount, partCount);
    }

    /** `DeInit`: unregister and return to `Uninitialized`. */
    method DeInit()
      modifies this`state, this`listening
      ensures !listening && state == Uninitialized
    {
      listening := false;
      state := Uninitialized;
    }
  }
}

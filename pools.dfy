/** Fixed-capacity slot pools. Every spawner scans its pool for the first
    slot whose active flag is clear and overwrites that slot; when every slot
    is active the spawn silently does nothing. Slots are never moved, so the
    index of a live entity is stable. */
module Pools {

  datatype Option<T> = None | Some(value: T)

  /** The lowest index whose slot is free, if any. */
  function FirstFree<T>(s: seq<T>, active: T -> bool): (r: Option<nat>)
    ensures r.Some? ==> r.value < |s| && !active(s[r.value])
    ensures r.Some? ==> forall j :: 0 <= j < r.value ==> active(s[j])
    ensures r.None? <==> forall j :: 0 <= j < |s| ==> active(s[j])
  {
    if |s| == 0 then None
    else if !active(s[0]) then Some(0)
    else match FirstFree(s[1..], active)
      case None => None
      case Some(k) => Some(k + 1)
  }

  /** The number of active slots. */
  function ActiveCount<T>(s: seq<T>, active: T -> bool): (n: nat)
    ensures n <= |s|
  {
    if |s| == 0 then 0
    else ActiveCount(s[..|s| - 1], active) + (if active(s[|s| - 1]) then 1 else 0)
  }

  /** One spawn: `x` goes into the first free slot, or nowhere. */
  function Place<T>(s: seq<T>, x: T, active: T -> bool): (r: seq<T>)
  {
    match FirstFree(s, active)
    case None => s
    case Some(i) => s[i := x]
  }

  /** A run of spawns, one per item, in order: the items that find no free
      slot are dropped. */
  function PlaceAll<T>(s: seq<T>, items: seq<T>, active: T -> bool): (r: seq<T>)
  {
    if |items| == 0 then s
    else Place(PlaceAll(s, items[..|items| - 1], active), items[|items| - 1], active)
  }

  /** `n` copies of the same value. */
  function Repeat<T>(x: T, n: nat): (r: seq<T>)
    ensures |r| == n && forall k :: 0 <= k < n ==> r[k] == x
  {
    if n == 0 then [] else Repeat(x, n - 1) + [x]
  }

  lemma {:induction false} ActiveCountFull<T>(s: seq<T>, active: T -> bool)
    ensures ActiveCount(s, active) == |s| <==> forall j :: 0 <= j < |s| ==> active(s[j])
  {
    if |s| > 0 {
      var init := s[..|s| - 1];
      ActiveCountFull(init, active);
      if forall j :: 0 <= j < |s| ==> active(s[j]) {
        assert forall j :: 0 <= j < |init| ==> active(init[j]) by {
          forall j | 0 <= j < |init| ensures active(init[j]) { assert init[j] == s[j]; }
        }
      } else if active(s[|s| - 1]) {
        var j :| 0 <= j < |s| && !active(s[j]);
        assert init[j] == s[j];
      }
    }
  }

  /** No slot counts exactly when every slot is inactive. */
  lemma {:induction false} ActiveCountZero<T>(s: seq<T>, active: T -> bool)
    ensures ActiveCount(s, active) == 0 <==> forall j :: 0 <= j < |s| ==> !active(s[j])
  {
    if |s| > 0 {
      var init := s[..|s| - 1];
      ActiveCountZero(init, active);
      if forall j :: 0 <= j < |s| ==> !active(s[j]) {
        assert forall j :: 0 <= j < |init| ==> !active(init[j]) by {
          forall j | 0 <= j < |init| ensures !active(init[j]) { assert init[j] == s[j]; }
        }
      } else if !active(s[|s| - 1]) {
        var j :| 0 <= j < |s| && active(s[j]);
        assert init[j] == s[j];
      }
    }
  }

  /** Overwriting one slot changes the count by what leaves and what arrives. */
  lemma {:induction false} ActiveCountUpdate<T>(s: seq<T>, i: nat, x: T, active: T -> bool)
    requires i < |s|
    ensures ActiveCount(s[i := x], active)
         == ActiveCount(s, active) - (if active(s[i]) then 1 else 0) + (if active(x) then 1 else 0)
  {
    var t := s[i := x];
    if i == |s| - 1 {
      assert t[..|t| - 1] == s[..|s| - 1];
    } else {
      assert t[..|t| - 1] == s[..|s| - 1][i := x];
      ActiveCountUpdate(s[..|s| - 1], i, x, active);
    }
  }

  /** A spawn leaves every active slot as it was, and when it claims a slot the
      active count rises by one; a spawn into a full pool changes nothing. */
  lemma PlaceSpec<T>(s: seq<T>, x: T, active: T -> bool)
    requires active(x)
    ensures |Place(s, x, active)| == |s|
    ensures forall j :: 0 <= j < |s| && active(s[j]) ==> Place(s, x, active)[j] == s[j]
    ensures ActiveCount(Place(s, x, active), active)
         == ActiveCount(s, active) + (if ActiveCount(s, active) < |s| then 1 else 0)
  {
    ActiveCountFull(s, active);
    match FirstFree(s, active)
    case None =>
    case Some(i) => ActiveCountUpdate(s, i, x, active);
  }

  /** A run of `n` spawns activates exactly min(n, free slots) slots and never
      touches a slot that was active before it. */
  lemma {:induction false} PlaceAllSpec<T>(s: seq<T>, items: seq<T>, active: T -> bool)
    requires forall k :: 0 <= k < |items| ==> active(items[k])
    ensures |PlaceAll(s, items, active)| == |s|
    ensures forall j :: 0 <= j < |s| && active(s[j]) ==> PlaceAll(s, items, active)[j] == s[j]
    ensures ActiveCount(PlaceAll(s, items, active), active)
         == ActiveCount(s, active) + Min(|items|, |s| - ActiveCount(s, active))
  {
    if |items| > 0 {
      var init := items[..|items| - 1];
      PlaceAllSpec(s, init, active);
      var mid := PlaceAll(s, init, active);
      PlaceSpec(mid, items[|items| - 1], active);
    }
  }

  function Min(a: int, b: int): int { if a <= b then a else b }

  /** The scan every spawner runs: write `x` into the first free slot of `a`. */
  method Claim<T>(a: array<T>, x: T, active: T -> bool) returns (slot: Option<nat>)
    modifies a
    ensures slot == FirstFree(old(a[..]), active)
    ensures a[..] == Place(old(a[..]), x, active)
  {
    var i := 0;
    while i < a.Length
      invariant 0 <= i <= a.Length
      invariant forall j :: 0 <= j < i ==> active(a[j])
      invariant a[..] == old(a[..])
    {
      if !active(a[i]) {
        a[i] := x;
        return Some(i);
      }
      i := i + 1;
    }
    return None;
  }
}

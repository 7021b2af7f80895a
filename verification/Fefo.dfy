/**
 * First-expired-first-out lot selection (src/modules/customer-orders/allocation.ts).
 * Quantities are integers at six decimals, as `parseFixed(_, 6)` produces them.
 */
module Fefo {
  import opened Common

  /** A lot belongs to exactly one item. */
  datatype Lot = Lot(id: Id, item: Id)

  /** The (warehouse, lot) pair that names one balance row. */
  datatype Key = Key(warehouse: Id, lot: Lot)

  datatype Portion = Portion(key: Key, quantity: nat)

  datatype SelectError = NoWarehouse | NoCandidate | ShortBy(quantity: nat)

  function Min(a: int, b: int): int { if a < b then a else b }

  function Positive(a: int): nat { if a > 0 then a else 0 }

  /** What one candidate contributes when `remaining` is still needed. */
  function Cut(available: int, remaining: int): nat {
    if remaining <= 0 || available <= 0 then 0 else Min(available, remaining)
  }

  /** The quantity drawn from each candidate, in candidate order. */
  function Taken(available: seq<int>, need: int): (taken: seq<nat>)
    ensures |taken| == |available|
  {
    if available == [] then [] else
      var n := |available| - 1;
      var before := Taken(available[..n], need);
      before + [Cut(available[n], need - Total(before))]
  }

  /** The candidates actually drawn from, with their quantities. */
  function Portions(keys: seq<Key>, taken: seq<nat>): seq<Portion>
    requires |keys| == |taken|
  {
    if keys == [] then [] else
      var n := |keys| - 1;
      Portions(keys[..n], taken[..n]) + (if taken[n] > 0 then [Portion(keys[n], taken[n])] else [])
  }

  function Quantities(portions: seq<Portion>): (q: seq<int>)
    ensures |q| == |portions|
  {
    seq(|portions|, i requires 0 <= i < |portions| => portions[i].quantity)
  }

  function PositiveParts(available: seq<int>): (p: seq<int>)
    ensures |p| == |available|
  {
    seq(|available|, i requires 0 <= i < |available| => Positive(available[i]))
  }

  /** The selection as one function of the candidates, their availabilities and the need. */
  function Select(hasWarehouse: bool, keys: seq<Key>, available: seq<int>, need: int): Result<seq<Portion>, SelectError>
    requires |keys| == |available|
  {
    if !hasWarehouse then Err(NoWarehouse)
    else if keys == [] then Err(NoCandidate)
    else
      var taken := Taken(available, need);
      if need > Total(taken) then Err(ShortBy(need - Total(taken)))
      else Ok(Portions(keys, taken))
  }

  // ---------------------------------------------------------------------------
  // What the greedy draw means

  lemma {:induction false} TakenWithin(available: seq<int>, need: int, i: nat)
    requires i < |available|
    ensures Taken(available, need)[i] <= Positive(available[i])
  {
    if i < |available| - 1 { TakenWithin(available[..|available| - 1], need, i); }
  }

  lemma {:induction false} TakenTotal(available: seq<int>, need: int)
    ensures Total(Taken(available, need)) == Min(Positive(need), Total(PositiveParts(available)))
  {
    if available != [] {
      var n := |available| - 1;
      TakenTotal(available[..n], need);
      var before := Taken(available[..n], need);
      TotalAppend(before, Cut(available[n], need - Total(before)));
      assert PositiveParts(available)[..n] == PositiveParts(available[..n]);
      PositiveTotal(available[..n]);
    }
  }

  lemma PositiveTotal(available: seq<int>)
    ensures Total(PositiveParts(available)) >= 0
  {
    TotalMonotone(seq(|available|, i => 0), PositiveParts(available));
    TotalZero(seq(|available|, i => 0));
  }

  /** No later candidate is touched before every earlier one is exhausted. */
  lemma {:induction false} EarlierExhausted(available: seq<int>, need: int, i: nat, j: nat)
    requires i < j < |available|
    requires Taken(available, need)[j] > 0
    ensures Taken(available, need)[i] == Positive(available[i])
  {
    var n := |available| - 1;
    var before := Taken(available[..n], need);
    if j < n {
      EarlierExhausted(available[..n], need, i, j);
    } else {
      // Candidate j was cut, so the candidates before it did not cover the need.
      TakenTotal(available[..n], need);
      forall k | 0 <= k < n ensures before[k] <= Positive(available[k]) { TakenWithin(available[..n], need, k); }
      if before[i] < Positive(available[i]) {
        StrictTotal(before, PositiveParts(available[..n]), i);
        assert false;
      }
    }
  }

  lemma {:induction false} StrictTotal(s: seq<int>, t: seq<int>, i: nat)
    requires |s| == |t| && i < |s|
    requires forall k :: 0 <= k < |s| ==> s[k] <= t[k]
    requires s[i] < t[i]
    ensures Total(s) < Total(t)
  {
    var n := |s| - 1;
    if i < n {
      StrictTotal(s[..n], t[..n], i);
    } else {
      TotalMonotone(s[..n], t[..n]);
    }
  }

  /** A rival way of covering the need: within each availability and summing to the need. */
  ghost predicate Feasible(draw: seq<int>, available: seq<int>, need: int) {
    && |draw| == |available|
    && (forall i :: 0 <= i < |draw| ==> 0 <= draw[i] <= Positive(available[i]))
    && Total(draw) == need
  }

  lemma {:induction false} TakenPrefix(available: seq<int>, need: int, p: nat)
    requires p <= |available|
    ensures Taken(available, need)[..p] == Taken(available[..p], need)
  {
    if p == |available| {
      assert available[..p] == available;
    } else {
      var n := |available| - 1;
      TakenPrefix(available[..n], need, p);
      assert available[..n][..p] == available[..p];
      assert Taken(available, need)[..p] == Taken(available[..n], need)[..p];
    }
  }

  lemma {:induction false} PrefixTotal(s: seq<int>, p: nat)
    requires p <= |s| && forall i :: 0 <= i < |s| ==> s[i] >= 0
    ensures 0 <= Total(s[..p]) <= Total(s)
    decreases |s|
  {
    if p == |s| {
      assert s[..p] == s;
      if s != [] { PrefixTotal(s[..p - 1], p - 1); }
    } else {
      var n := |s| - 1;
      PrefixTotal(s[..n], p);
      assert s[..n][..p] == s[..p];
    }
  }

  /** Greedy dominance: no feasible draw takes more from the first `p` candidates, for any `p`. */
  lemma GreedyDominates(draw: seq<int>, available: seq<int>, need: int, p: nat)
    requires Feasible(draw, available, need)
    requires p <= |available|
    ensures Total(draw[..p]) <= Total(Taken(available, need)[..p])
  {
    TakenPrefix(available, need, p);
    TakenTotal(available[..p], need);
    PrefixTotal(draw, p);
    WithinParts(draw, available, p);
  }

  lemma WithinParts(draw: seq<int>, available: seq<int>, p: nat)
    requires p <= |draw| == |available|
    requires forall i :: 0 <= i < |draw| ==> draw[i] <= Positive(available[i])
    ensures Total(draw[..p]) <= Total(PositiveParts(available[..p]))
  {
    TotalMonotone(draw[..p], PositiveParts(available[..p]));
  }

  /** Expiry order of the candidate query: soonest first, lots without a date last. */
  ghost predicate ExpiresNoLater(a: Option<int>, b: Option<int>) {
    b.None? || (a.Some? && a.value <= b.value)
  }

  ghost predicate InExpiryOrder(expires: seq<Option<int>>) {
    forall i, j :: 0 <= i < j < |expires| ==> ExpiresNoLater(expires[i], expires[j])
  }

  /** Quantity a draw takes from candidates that expire on or before `day`. */
  ghost function DrawnBy(draw: seq<int>, expires: seq<Option<int>>, day: int): int
    requires |draw| == |expires|
  {
    Total(seq(|draw|, i requires 0 <= i < |draw| =>
      if expires[i].Some? && expires[i].value <= day then draw[i] else 0))
  }

  lemma DueCount(expires: seq<Option<int>>, day: int) returns (p: nat)
    requires InExpiryOrder(expires)
    ensures p <= |expires|
    ensures forall i :: 0 <= i < |expires| ==> ((expires[i].Some? && expires[i].value <= day) <==> i < p)
  {
    p := 0;
    while p < |expires| && expires[p].Some? && expires[p].value <= day
      invariant p <= |expires|
      invariant forall i :: 0 <= i < p ==> expires[i].Some? && expires[i].value <= day
    {
      p := p + 1;
    }
    if p < |expires| {
      forall i | p <= i < |expires| ensures !(expires[i].Some? && expires[i].value <= day) {
        if i > p { assert ExpiresNoLater(expires[p], expires[i]); }
      }
    }
  }

  lemma DrawnByPrefix(draw: seq<int>, expires: seq<Option<int>>, day: int, p: nat)
    requires |draw| == |expires| && p <= |expires|
    requires forall i :: 0 <= i < |expires| ==> ((expires[i].Some? && expires[i].value <= day) <==> i < p)
    ensures DrawnBy(draw, expires, day) == Total(draw[..p])
  {
    var w := seq(|draw|, i requires 0 <= i < |draw| =>
      if expires[i].Some? && expires[i].value <= day then draw[i] else 0);
    assert w == draw[..p] + w[p..];
    TotalConcat(draw[..p], w[p..]);
    TotalZero(w[p..]);
  }

  /**
   * FEFO: whatever date is chosen, no other way of covering the need takes more stock from
   * lots expiring on or before it.
   */
  lemma DrawsEarliestExpiring(draw: seq<int>, available: seq<int>, expires: seq<Option<int>>, need: int, day: int)
    requires |available| == |expires| && InExpiryOrder(expires)
    requires Feasible(draw, available, need)
    ensures DrawnBy(draw, expires, day) <= DrawnBy(Taken(available, need), expires, day)
  {
    var p := DueCount(expires, day);
    DrawnByPrefix(draw, expires, day, p);
    DrawnByPrefix(Taken(available, need), expires, day, p);
    GreedyDominates(draw, available, need, p);
  }

  lemma {:induction false} PortionsTotal(keys: seq<Key>, taken: seq<nat>)
    requires |keys| == |taken|
    ensures Total(Quantities(Portions(keys, taken))) == Total(taken)
  {
    if keys != [] {
      var n := |keys| - 1;
      PortionsTotal(keys[..n], taken[..n]);
      var before := Portions(keys[..n], taken[..n]);
      if taken[n] > 0 {
        assert Quantities(Portions(keys, taken)) == Quantities(before) + [taken[n] as int];
        TotalAppend(Quantities(before), taken[n]);
      } else {
        assert Portions(keys, taken) == before;
      }
    }
  }

  /** A portion is a positive quantity taken from some candidate. */
  ghost predicate DrawnFrom(p: Portion, keys: seq<Key>, taken: seq<nat>)
    requires |keys| == |taken|
  {
    p.quantity > 0 && exists i :: 0 <= i < |keys| && p == Portion(keys[i], taken[i])
  }

  lemma {:induction false} PortionsSound(keys: seq<Key>, taken: seq<nat>, p: Portion)
    requires |keys| == |taken| && p in Portions(keys, taken)
    ensures DrawnFrom(p, keys, taken)
  {
    var n := |keys| - 1;
    if p in Portions(keys[..n], taken[..n]) {
      PortionsSound(keys[..n], taken[..n], p);
      var i :| 0 <= i < n && p == Portion(keys[..n][i], taken[..n][i]);
      assert p == Portion(keys[i], taken[i]);
    } else {
      assert p == Portion(keys[n], taken[n]);
    }
  }

  /**
   * Selection is exact: it succeeds if and only if some warehouse and candidate exist and the
   * positive availabilities cover the need; the portions then sum to the need and respect each
   * availability, and otherwise the reported shortage is exactly what is missing.
   */
  lemma SelectionExact(hasWarehouse: bool, keys: seq<Key>, available: seq<int>, need: int)
    requires |keys| == |available| && need >= 0
    ensures var r := Select(hasWarehouse, keys, available, need);
      && (r.Ok? <==> hasWarehouse && keys != [] && need <= Total(PositiveParts(available)))
      && (r.Ok? ==>
          && Total(Quantities(r.value)) == need
          && (forall p :: p in r.value ==>
                p.quantity > 0 && exists i :: 0 <= i < |keys| && p.key == keys[i] && p.quantity <= available[i]))
      && (r.Err? && r.error.ShortBy? ==> r.error.quantity == need - Total(PositiveParts(available)))
  {
    var r := Select(hasWarehouse, keys, available, need);
    var taken := Taken(available, need);
    TakenTotal(available, need);
    PortionsTotal(keys, taken);
    if r.Ok? {
      forall p | p in r.value
        ensures p.quantity > 0 && exists i :: 0 <= i < |keys| && p.key == keys[i] && p.quantity <= available[i]
      {
        PortionsSound(keys, taken, p);
        var i :| 0 <= i < |keys| && p == Portion(keys[i], taken[i]);
        TakenWithin(available, need, i);
        assert p.key == keys[i] && p.quantity <= available[i];
      }
    }
  }

  /** Quantity a list of portions draws from one balance row. */
  function DrawnAt(portions: seq<Portion>, key: Key): nat {
    if portions == [] then 0 else
      var n := |portions| - 1;
      DrawnAt(portions[..n], key) + (if portions[n].key == key then portions[n].quantity else 0)
  }

  lemma {:induction false} DrawnAtConcat(p: seq<Portion>, q: seq<Portion>, key: Key)
    ensures DrawnAt(p + q, key) == DrawnAt(p, key) + DrawnAt(q, key)
  {
    if q == [] {
      assert p + q == p;
    } else {
      var n := |q| - 1;
      DrawnAtConcat(p, q[..n], key);
      assert (p + q)[..|p| + n] == p + q[..n];
    }
  }

  predicate Distinct(keys: seq<Key>) {
    forall i, j :: 0 <= i < j < |keys| ==> keys[i] != keys[j]
  }

  lemma DrawnAtLast(keys: seq<Key>, taken: seq<nat>, key: Key)
    requires |keys| == |taken| > 0
    ensures var n := |keys| - 1;
      DrawnAt(Portions(keys, taken), key) ==
        DrawnAt(Portions(keys[..n], taken[..n]), key) + (if keys[n] == key then taken[n] else 0)
  {
    var n := |keys| - 1;
    var before := Portions(keys[..n], taken[..n]);
    if taken[n] > 0 {
      assert Portions(keys, taken)[..|before|] == before;
    } else {
      assert Portions(keys, taken) == before;
    }
  }

  lemma {:induction false} DrawnNowhere(keys: seq<Key>, taken: seq<nat>, key: Key)
    requires |keys| == |taken| && key !in keys
    ensures DrawnAt(Portions(keys, taken), key) == 0
  {
    if keys != [] {
      var n := |keys| - 1;
      assert keys[n] != key && key !in keys[..n];
      DrawnAtLast(keys, taken, key);
      DrawnNowhere(keys[..n], taken[..n], key);
    }
  }

  lemma {:induction false} DrawnOnce(keys: seq<Key>, taken: seq<nat>, i: nat)
    requires |keys| == |taken| && Distinct(keys) && i < |keys|
    ensures DrawnAt(Portions(keys, taken), keys[i]) == taken[i]
  {
    var n := |keys| - 1;
    DrawnAtLast(keys, taken, keys[i]);
    if i < n {
      DrawnOnce(keys[..n], taken[..n], i);
    } else {
      DrawnNowhere(keys[..n], taken[..n], keys[n]);
    }
  }

  /** With distinct candidate keys, a key is drawn from once at most, within its availability. */
  lemma DrawWithinAvailable(keys: seq<Key>, available: seq<int>, need: int, key: Key)
    requires |keys| == |available| && Distinct(keys)
    ensures var drawn := DrawnAt(Portions(keys, Taken(available, need)), key);
      && (key !in keys ==> drawn == 0)
      && (forall i :: 0 <= i < |keys| && keys[i] == key ==> drawn <= Positive(available[i]))
  {
    if key in keys {
      forall i | 0 <= i < |keys| && keys[i] == key
        ensures DrawnAt(Portions(keys, Taken(available, need)), key) <= Positive(available[i])
      {
        DrawnOnce(keys, Taken(available, need), i);
        TakenWithin(available, need, i);
      }
    } else {
      DrawnNowhere(keys, Taken(available, need), key);
    }
  }

  // ---------------------------------------------------------------------------
  // The loop of the source

  /**
   * The portion loop: walks the candidates in order, skipping exhausted keys and stopping once
   * nothing remains to be found.
   */
  method SelectPortions(hasWarehouse: bool, keys: seq<Key>, onHand: map<Key, int>, reserved: map<Key, int>, need: int)
    returns (r: Result<seq<Portion>, SelectError>)
    ensures r == Select(hasWarehouse, keys, Available(keys, onHand, reserved), need)
  {
    if !hasWarehouse { return Err(NoWarehouse); }
    if |keys| == 0 { return Err(NoCandidate); }
    ghost var available := Available(keys, onHand, reserved);
    var portions: seq<Portion> := [];
    var remaining := need;
    var i := 0;
    while i < |keys| && remaining > 0
      invariant 0 <= i <= |keys|
      invariant Scanned(keys, available, need, i, portions, remaining)
    {
      var here := Lookup(onHand, keys[i]) - Lookup(reserved, keys[i]);
      assert here == available[i];
      OneMoreCandidate(keys, available, need, i, portions, remaining);
      if here > 0 {
        var take := if here < remaining then here else remaining;
        portions := portions + [Portion(keys[i], take)];
        remaining := remaining - take;
      }
      i := i + 1;
    }
    NothingAfterCovered(keys, available, need, i, portions, remaining);
    if remaining > 0 {
      return Err(ShortBy(remaining));
    }
    return Ok(portions);
  }

  /** The portions found and the quantity still needed after the first `i` candidates. */
  ghost predicate Scanned(keys: seq<Key>, available: seq<int>, need: int, i: nat, portions: seq<Portion>,
      remaining: int)
    requires |keys| == |available| && i <= |keys|
  {
    && portions == Portions(keys[..i], Taken(available[..i], need))
    && remaining == need - Total(Taken(available[..i], need))
  }

  lemma OneMoreCandidate(keys: seq<Key>, available: seq<int>, need: int, i: nat, portions: seq<Portion>, remaining: int)
    requires |keys| == |available| && i < |keys| && remaining > 0
    requires Scanned(keys, available, need, i, portions, remaining)
    ensures var take := if available[i] < remaining then available[i] else remaining;
      if available[i] > 0
        then Scanned(keys, available, need, i + 1, portions + [Portion(keys[i], take)], remaining - take)
      else Scanned(keys, available, need, i + 1, portions, remaining)
  {
    var before := Taken(available[..i], need);
    var cut := Cut(available[i], remaining);
    assert available[..i + 1][..i] == available[..i];
    assert keys[..i + 1][..i] == keys[..i];
    assert Taken(available[..i + 1], need) == before + [cut];
    assert Taken(available[..i + 1], need)[..i] == before;
    TotalAppend(before, cut);
  }

  function Lookup(m: map<Key, int>, k: Key): int { if k in m then m[k] else 0 }

  /** On-hand minus reservations, candidate by candidate. */
  function Available(keys: seq<Key>, onHand: map<Key, int>, reserved: map<Key, int>): (a: seq<int>)
    ensures |a| == |keys|
  {
    seq(|keys|, i requires 0 <= i < |keys| => Lookup(onHand, keys[i]) - Lookup(reserved, keys[i]))
  }

  /** What candidate `k` contributes is cut to what the candidates before it left to find. */
  lemma {:induction false} LastCut(available: seq<int>, need: int, k: nat)
    requires k < |available|
    ensures Taken(available, need)[k] == Cut(available[k], need - Total(Taken(available, need)[..k]))
  {
    var n := |available| - 1;
    if k < n {
      LastCut(available[..n], need, k);
      TakenEarlier(available, need, k);
    } else {
      TakenLast(available, need);
    }
  }

  lemma TakenEarlier(available: seq<int>, need: int, k: nat)
    requires k < |available| - 1
    ensures var before := Taken(available[..|available| - 1], need);
      Taken(available, need)[..k] == before[..k] && Taken(available, need)[k] == before[k]
  {
  }

  lemma TakenLast(available: seq<int>, need: int)
    requires available != []
    ensures var n := |available| - 1;
      && Taken(available, need)[..n] == Taken(available[..n], need)
      && Taken(available, need)[n] == Cut(available[n], need - Total(Taken(available, need)[..n]))
  {
    var n := |available| - 1;
    assert Taken(available, need)[..n] == Taken(available[..n], need);
  }

  /** Once the need is covered, the remaining candidates contribute nothing. */
  lemma CoveredTail(available: seq<int>, need: int, i: nat, k: nat)
    requires i <= k < |available| && need <= Total(Taken(available, need)[..i])
    ensures Taken(available, need)[k] == 0
  {
    LastCut(available, need, k);
    PrefixGrows(Taken(available, need), i, k);
  }

  lemma PrefixGrows(s: seq<int>, i: nat, k: nat)
    requires i <= k <= |s| && forall j :: 0 <= j < |s| ==> s[j] >= 0
    ensures Total(s[..i]) <= Total(s[..k])
  {
    PrefixTotal(s[..k], i);
    assert s[..k][..i] == s[..i];
  }

  lemma {:induction false} ZeroTail(keys: seq<Key>, taken: seq<nat>, i: nat)
    requires |keys| == |taken| && i <= |keys|
    requires forall k :: i <= k < |taken| ==> taken[k] == 0
    ensures Portions(keys, taken) == Portions(keys[..i], taken[..i])
    ensures Total(taken) == Total(taken[..i])
  {
    if i == |keys| {
      assert keys[..i] == keys && taken[..i] == taken;
    } else {
      var n := |keys| - 1;
      assert taken[..n][..i] == taken[..i] && keys[..n][..i] == keys[..i];
      ZeroTail(keys[..n], taken[..n], i);
    }
  }

  /** Once the need is covered (or the candidates run out) the rest of the list adds nothing. */
  lemma NothingAfterCovered(keys: seq<Key>, available: seq<int>, need: int, i: nat, portions: seq<Portion>,
      remaining: int)
    requires |keys| == |available| && i <= |keys|
    requires Scanned(keys, available, need, i, portions, remaining)
    requires i == |keys| || remaining <= 0
    ensures keys != [] ==>
      Select(true, keys, available, need) == (if remaining > 0 then Err(ShortBy(remaining)) else Ok(portions))
  {
    TakenPrefix(available, need, i);
    forall k | i <= k < |available| ensures Taken(available, need)[k] == 0 {
      CoveredTail(available, need, i, k);
    }
    ZeroTail(keys, Taken(available, need), i);
  }
}

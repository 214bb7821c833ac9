/** `Query` against longest-prefix match. */
module RoutingQuery {
  import opened Machine
  import opened RoutingTables

  predicate Zero(mask: Ip) {
    mask.bits == 0
  }

  /** Mask `a` keeps no bit that `b` drops. */
  predicate Within(a: Ip, b: Ip) {
    And(a.bits, b.bits) == a.bits
  }

  /** The addresses of a route. */
  predicate Covers(e: RoutingEntry, address: Ip) {
    Masked(address, e.mask) == Masked(e.dest, e.mask)
  }

  /** Entry `i` is usable for the address, and no usable entry has a bit in its
      mask that this one lacks: longest-prefix match, for masks of any shape. */
  ghost predicate Longest(t: seq<RoutingEntry>, address: Ip, i: nat) {
    && i < |t| && Matches(t[i], address) && !Zero(t[i].mask)
    && forall j :: 0 <= j < |t| && Matches(t[j], address) ==> Within(t[j].mask, t[i].mask)
  }

  // ----- masks -----

  lemma WithinBits(a: bv32, b: bv32)
    requires And(a, b) == a
    ensures !Less(b, a)
    ensures Less(a, b) <==> a != b
  {
    if !(a < b) { EqualBits(a, b); }
    Irreflexive(a);
  }

  lemma EqualBits(a: bv32, b: bv32)
    requires And(a, b) == a && !(a < b)
    ensures a == b
  {
  }

  /** The comparison `Query` makes, on masks one of which contains the other. */
  lemma WithinOrder(e: RoutingEntry, f: RoutingEntry)
    requires Within(e.mask, f.mask)
    ensures !Longer(e, f.mask)
    ensures Longer(f, e.mask) <==> e.mask != f.mask
  {
    hide And, Less;
    WithinBits(e.mask.bits, f.mask.bits);
  }

  lemma Irreflexive(a: bv32)
    ensures !(a < a)
  {
  }

  lemma ZeroBits(a: bv32)
    ensures Less(0, a) <==> a != 0
  {
  }

  lemma LongerThanNone(e: RoutingEntry)
    ensures Longer(e, NONE) <==> !Zero(e.mask)
  {
    hide Less;
    ZeroBits(e.mask.bits);
  }

  lemma WithinTrans(a: Ip, b: Ip, c: Ip)
    requires Within(a, b) && Within(b, c)
    ensures Within(a, c)
  {
  }

  // ----- what the scan finds -----

  /** Once the scan has passed the first longest entry it holds it, and before it
      holds something shorter. */
  lemma {:induction false} ScanFinds(t: seq<RoutingEntry>, address: Ip, k: nat, n: nat)
    requires n <= |t| && Longest(t, address, k) && forall j :: 0 <= j < k ==> !Longest(t, address, j)
    ensures k < n ==> Best(t, address, n) == Some(k)
    ensures n <= k && Best(t, address, n).Some? ==>
              var b := Best(t, address, n).value;
              Matches(t[b], address) && Within(t[b].mask, t[k].mask) && t[b].mask != t[k].mask
    decreases n
  {
    hide Matches, Longer, Zero, Within;
    if n > 0 {
      ScanFinds(t, address, k, n - 1);
      var b := Best(t, address, n - 1);
      var last := t[n - 1];
      if n - 1 < k {
        if Matches(last, address) { EarlierIsShorter(t, address, k, n - 1); }
      } else if n - 1 == k {
        if b.Some? { WithinOrder(t[b.value], last); } else { LongerThanNone(last); }
      } else if Matches(last, address) {
        WithinOrder(last, t[k]);
      }
    }
  }

  /** A usable entry before the first longest one has a strictly smaller mask. */
  lemma EarlierIsShorter(t: seq<RoutingEntry>, address: Ip, k: nat, j: nat)
    requires Longest(t, address, k) && j < k && Matches(t[j], address) && !Longest(t, address, j)
    ensures Within(t[j].mask, t[k].mask) && t[j].mask != t[k].mask
  {
    hide Matches, Zero, Within;
  }

  lemma {:induction false} FirstLongest(t: seq<RoutingEntry>, address: Ip, k: nat) returns (i: nat)
    requires Longest(t, address, k)
    ensures i <= k && Longest(t, address, i) && forall j :: 0 <= j < i ==> !Longest(t, address, j)
    decreases k
  {
    hide Longest;
    if j: nat :| j < k && Longest(t, address, j) {
      i := FirstLongest(t, address, j);
    } else {
      i := k;
    }
  }

  /** `Query` takes a longest match exactly when there is one, whatever the masks;
      it takes the first, and every other usable route covers all that one covers. */
  lemma TakesLongestExactly(t: seq<RoutingEntry>, address: Ip)
    ensures var b := Best(t, address, |t|);
            && ((b.Some? && Longest(t, address, b.value)) <==> exists k :: Longest(t, address, k))
            && ((exists k :: Longest(t, address, k)) ==>
                  && Query(t, address) == Some(t[b.value].nexthop)
                  && (forall j :: 0 <= j < b.value ==> !Longest(t, address, j))
                  && forall j, other :: 0 <= j < |t| && Matches(t[j], address) && Covers(t[b.value], other) ==>
                       Covers(t[j], other))
  {
    if k :| Longest(t, address, k) {
      var i := FirstLongest(t, address, k);
      ScanFinds(t, address, i, |t|);
      hide Matches, Zero, Within;
      forall j, other | 0 <= j < |t| && Matches(t[j], address) && Covers(t[i], other) ensures Covers(t[j], other) {
        MoreSpecific(t[i], t[j], address, other);
      }
    }
  }

  lemma MaskedTwice(x: bv32, y: bv32, a: bv32, b: bv32)
    requires And(a, b) == a && And(x, b) == And(y, b)
    ensures And(x, a) == And(y, a)
  {
  }

  lemma MoreSpecific(e: RoutingEntry, f: RoutingEntry, address: Ip, other: Ip)
    requires Within(f.mask, e.mask) && Matches(e, address) && Matches(f, address) && Covers(e, other)
    ensures Covers(f, other)
  {
    hide And;
    MaskedTwice(other.bits, address.bits, f.mask.bits, e.mask.bits);
  }

  // ----- contiguous masks -----

  /** The mask of a prefix: ones, then zeros. */
  predicate Contiguous(mask: Ip) {
    (!mask.bits) & ((!mask.bits) + 1) == 0
  }

  lemma TotalBits(a: bv32, b: bv32)
    requires (!a) & ((!a) + 1) == 0 && (!b) & ((!b) + 1) == 0
    ensures And(a, b) == a || And(b, a) == b
  {
  }

  lemma WithinTotal(a: Ip, b: Ip)
    requires Contiguous(a) && Contiguous(b)
    ensures Within(a, b) || Within(b, a)
  {
    TotalBits(a.bits, b.bits);
  }

  lemma ZeroWithin(a: Ip, b: Ip)
    requires Zero(a)
    ensures Within(a, b) && (Within(b, a) ==> Zero(b))
  {
  }

  lemma {:induction false} LongestOf(t: seq<RoutingEntry>, address: Ip, n: nat) returns (i: nat)
    requires n <= |t| && exists j :: 0 <= j < n && Matches(t[j], address)
    requires forall e :: e in t ==> Contiguous(e.mask)
    ensures i < n && Matches(t[i], address)
    ensures forall j :: 0 <= j < n && Matches(t[j], address) ==> Within(t[j].mask, t[i].mask)
    decreases n
  {
    hide Matches, Within, Contiguous;
    var last := t[n - 1];
    WithinTotal(last.mask, last.mask);
    if exists j :: 0 <= j < n - 1 && Matches(t[j], address) {
      i := LongestOf(t, address, n - 1);
      assert t[i] in t && last in t;
      WithinTotal(last.mask, t[i].mask);
      if Matches(last, address) && !Within(last.mask, t[i].mask) {
        forall e: RoutingEntry | Within(e.mask, t[i].mask) ensures Within(e.mask, last.mask) {
          WithinTrans(e.mask, t[i].mask, last.mask);
        }
        i := n - 1;
      }
    } else {
      i := n - 1;
    }
  }

  /** With the masks of prefixes there is always a longest match, so `Query` is
      longest-prefix match: it answers whenever a non-zero prefix covers the
      address, and with the most specific. */
  lemma LongestPrefixMatch(t: seq<RoutingEntry>, address: Ip)
    requires forall e :: e in t ==> Contiguous(e.mask)
    ensures var b := Best(t, address, |t|);
            && (b.Some? <==> exists e :: e in t && Matches(e, address) && !Zero(e.mask))
            && (b.Some? ==> Longest(t, address, b.value))
  {
    TakesLongestExactly(t, address);
    AnswersExactly(t, address);
    hide Matches, Zero, Within, Contiguous, Best;
    if e :| e in t && Matches(e, address) && !Zero(e.mask) {
      var j :| 0 <= j < |t| && t[j] == e;
      var i := LongestOf(t, address, |t|);
      if Zero(t[i].mask) { ZeroWithin(t[i].mask, e.mask); }
      assert Longest(t, address, i);
    }
  }

  /** A default route is never taken, even when nothing else matches: whatever
      the masks, `Query` answers exactly when a usable entry with a non-zero mask
      covers the address. */
  lemma AnswersExactly(t: seq<RoutingEntry>, address: Ip)
    ensures Query(t, address) == None <==> forall e :: e in t && Matches(e, address) ==> Zero(e.mask)
  {
    hide Matches, Zero, Longer;
    var n := 0;
    while n < |t|
      invariant n <= |t|
      invariant Best(t, address, n) == None <==> forall j :: 0 <= j < n && Matches(t[j], address) ==> Zero(t[j].mask)
    {
      LongerThanNone(t[n]);
      n := n + 1;
    }
  }
}

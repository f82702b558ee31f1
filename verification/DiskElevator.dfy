/**
 The request list of the hard disk driver (`kernel/hd.c`): requests are sorted in while the first two stay
 where they are.
 */
module DiskElevator {
  const NULL: int := -1

  /** `nsector` and the buffer do not matter here; `hd` is negative if the entry is unused. */
  datatype Request = Request(hd: int, cyl: int, head: int, sector: int, next: int)

  /** `IN_ORDER` */
  predicate InOrder(a: Request, b: Request) {
    a.hd < b.hd || (a.hd == b.hd &&
      (a.cyl < b.cyl || (a.cyl == b.cyl &&
        (a.head < b.head || (a.head == b.head &&
          a.sector < b.sector)))))
  }

  predicate SameKey(a: Request, b: Request) {
    a.hd == b.hd && a.cyl == b.cyl && a.head == b.head && a.sector == b.sector
  }

  lemma OrderFacts(a: Request, b: Request, c: Request)
    ensures InOrder(a, b) && InOrder(b, c) ==> InOrder(a, c)
    ensures !InOrder(a, a) && !(InOrder(a, b) && InOrder(b, a))
    ensures InOrder(a, b) || InOrder(b, a) || SameKey(a, b)
    ensures a.hd < b.hd ==> InOrder(a, b)
    ensures a.hd == b.hd && a.cyl < b.cyl ==> InOrder(a, b)
    ensures a.hd == b.hd && a.cyl == b.cyl && a.head < b.head ==> InOrder(a, b)
    ensures a.hd == b.hd && a.cyl == b.cyl && a.head == b.head && a.sector < b.sector ==> InOrder(a, b)
  {
  }

  // ---------- The list ----------

  predicate Link(req: seq<Request>, q: seq<nat>, i: nat) {
    i < |q| && q[i] < |req| && req[q[i]].next == if i + 1 < |q| then q[i + 1] else NULL
  }

  /** The entries `q` form the list that starts at `first`. */
  ghost predicate IsQueue(req: seq<Request>, first: int, q: seq<nat>) {
    && first == (if |q| > 0 then q[0] else NULL)
    && (forall i: nat, j: nat {:trigger q[i], q[j]} :: i < j < |q| ==> q[i] != q[j])
    && (forall i: nat {:trigger Link(req, q, i)} :: i < |q| ==> Link(req, q, i))
  }

  ghost predicate Inside(req: seq<Request>, q: seq<nat>) {
    forall i: nat {:trigger q[i]} :: i < |q| ==> q[i] < |req|
  }

  /** No request in the list has the key of `r`. */
  ghost predicate NewKey(req: seq<Request>, q: seq<nat>, r: nat) {
    forall i: nat {:trigger q[i]} :: i < |q| && q[i] < |req| && r < |req| ==> !SameKey(req[q[i]], req[r])
  }

  ghost predicate Keyed(req: seq<Request>, q: seq<nat>) {
    Inside(req, q) &&
    forall i: nat, j: nat {:trigger q[i], q[j]} :: i < j < |q| ==>
        q[i] < |req| && q[j] < |req| && !SameKey(req[q[i]], req[q[j]])
  }

  /** At `i` the order goes down: a new sweep of the arm begins. */
  predicate Descent(req: seq<Request>, q: seq<nat>, i: int) {
    0 <= i && i + 1 < |q| && q[i] < |req| && q[i + 1] < |req| && !InOrder(req[q[i]], req[q[i + 1]])
  }

  /** From the second entry on there is at most one descent: at most two sweeps. */
  ghost predicate TwoSweeps(req: seq<Request>, q: seq<nat>) {
    forall i: int, j: int {:trigger Descent(req, q, i), Descent(req, q, j)} :: 1 <= i < j ==>
        !(Descent(req, q, i) && Descent(req, q, j))
  }

  /** The arm of the drive does not go back between these two requests. */
  predicate NotBack(a: Request, b: Request) {
    a.hd < b.hd || (a.hd == b.hd && a.cyl <= b.cyl)
  }

  /** From the `m`-th entry up to the `n`-th the drives come one after the other, and each arm only goes up. */
  ghost predicate OneSweep(req: seq<Request>, q: seq<nat>, m: nat, n: nat) {
    forall i: nat, j: nat {:trigger q[i], q[j]} :: m <= i <= j < n && j < |q| && q[i] < |req| && q[j] < |req| ==>
      NotBack(req[q[i]], req[q[j]])
  }

  /** From the second entry on there are two sweeps over the cylinders, and no more. */
  ghost predicate ArmSweeps(req: seq<Request>, q: seq<nat>) {
    exists m: nat {:trigger OneSweep(req, q, m, |q|)} :: m >= 1 && OneSweep(req, q, 1, m) &&
      OneSweep(req, q, m, |q|)
  }

  lemma {:induction false} NoDescent(req: seq<Request>, q: seq<nat>, m: nat, n: nat, i: nat, j: nat)
    requires Inside(req, q) && m <= i <= j < n <= |q|
    requires forall k: int {:trigger Descent(req, q, k)} :: m <= k && k + 1 < n ==> !Descent(req, q, k)
    ensures q[i] < |req| && q[j] < |req| && NotBack(req[q[i]], req[q[j]])
    decreases j
  {
    assert q[i] < |req| && q[j] < |req|;
    if i < j {
      NoDescent(req, q, m, n, i, j - 1);
      assert !Descent(req, q, j - 1);
    }
  }

  lemma SweepWithout(req: seq<Request>, q: seq<nat>, m: nat, n: nat)
    requires Inside(req, q) && n <= |q|
    requires forall k: int {:trigger Descent(req, q, k)} :: m <= k && k + 1 < n ==> !Descent(req, q, k)
    ensures OneSweep(req, q, m, n)
  {
    forall i: nat, j: nat | m <= i <= j < n && j < |q| && q[i] < |req| && q[j] < |req|
      ensures NotBack(req[q[i]], req[q[j]])
    {
      NoDescent(req, q, m, n, i, j);
    }
  }

  /** At most one descent of the order means that the cylinders are passed in two sweeps. */
  lemma SweepsOfArm(req: seq<Request>, q: seq<nat>)
    requires Inside(req, q) && TwoSweeps(req, q)
    ensures ArmSweeps(req, q)
  {
    if d: int :| 1 <= d && Descent(req, q, d) {
      SweepWithout(req, q, 1, d + 1);
      SweepWithout(req, q, d + 1, |q|);
    } else {
      SweepWithout(req, q, 1, |q|);
      assert OneSweep(req, q, 1, if |q| > 0 then |q| else 1);
      assert OneSweep(req, q, if |q| > 0 then |q| else 1, |q|);
    }
  }

  /** Where `add_request` puts a new request. */
  predicate Fits(req: seq<Request>, q: seq<nat>, r: nat, i: nat) {
    && 0 <= i && i + 1 < |q| && r < |req| && q[i] < |req| && q[i + 1] < |req|
    && (InOrder(req[q[i]], req[r]) || !InOrder(req[q[i]], req[q[i + 1]])) && InOrder(req[r], req[q[i + 1]])
  }

  /** `k` is the first place behind the second entry where the request fits, or the end of the list. */
  ghost predicate FirstFit(req: seq<Request>, q: seq<nat>, r: nat, k: nat) {
    && (k < |q| ==> k >= 2 && Fits(req, q, r, k - 1))
    && forall i: nat {:trigger Fits(req, q, r, i)} :: 1 <= i && i + 1 < k ==> !Fits(req, q, r, i)
  }

  class Disk {
    var req: seq<Request>
    var thisRequest: int
    ghost var q: seq<nat>
    ghost var distinct: bool        // no request had the key of one that was waiting

    ghost predicate Valid()
      reads this
    {
      IsQueue(req, thisRequest, q) && Inside(req, q) && (distinct ==> Keyed(req, q) && TwoSweeps(req, q))
    }

    constructor (n: nat)
      ensures Valid() && q == [] && |req| == n && distinct && thisRequest == NULL
      ensures forall x {:trigger req[x]} :: 0 <= x < n ==> req[x].next == NULL
    {
      req := seq(n, _ => Request(-1, 0, 0, 0, NULL));
      thisRequest := NULL;
      q, distinct := [], true;
    }

    /** `add_request`; the new entry is filled in and in no list. */
    method AddRequest(r: nat)
      requires Valid() && r < |req| && r !in q && req[r].next == NULL
      modifies this
      ensures Valid() && |req| == |old(req)| && distinct == old(distinct && NewKey(req, q, r))
      ensures distinct ==> ArmSweeps(req, q)
      ensures exists k: nat :: k <= |old(q)| && q == old(q)[..k] + [r] + old(q)[k..] && FirstFit(old(req), old(q), r, k)
      ensures forall x {:trigger req[x]} :: 0 <= x < |req| ==> req[x] == old(req)[x].(next := req[x].next)
    {
      ghost var req0, q0 := req, q;
      ghost var k: nat := |q|;
      var tmp := thisRequest;
      if tmp == NULL {
        thisRequest := r;
      } else {
        assert Link(req, q, 0);
        if req[tmp].next == NULL {
          assert |q| == 1;
          req := req[tmp := req[tmp].(next := r)];
        } else {
          tmp := req[tmp].next;
          ghost var i: nat := 1;
          assert Link(req, q, 1);
          while req[tmp].next != NULL
            invariant 1 <= i < |q| && tmp == q[i] && tmp < |req| && Link(req, q, i)
            invariant forall j: nat {:trigger Fits(req, q, r, j)} :: 1 <= j < i ==> !Fits(req, q, r, j)
            decreases |q| - i
          {
            assert Link(req, q, i + 1);
            if (InOrder(req[tmp], req[r]) || !InOrder(req[tmp], req[req[tmp].next])) &&
                InOrder(req[r], req[req[tmp].next]) {
              break;
            }
            assert !Fits(req, q, r, i);
            tmp := req[tmp].next;
            i := i + 1;
          }
          k := i + 1;
          assert k < |q| ==> Fits(req, q, r, i);
          req := req[r := req[r].(next := req[tmp].next)];
          req := req[tmp := req[tmp].(next := r)];
        }
      }
      q := q[..k] + [r] + q[k..];
      AddedQueue(req0, q0, r, k, req, q, thisRequest);
      distinct := distinct && NewKey(req0, q0, r);
      if distinct {
        AddedKeys(req0, q0, r, k, req, q);
        AddedSweeps(req0, q0, r, k, req, q);
        SweepsOfArm(req, q);
      }
    }

    /** The end of `read_intr` and `write_intr`: the first request is done. */
    method Done()
      requires Valid() && thisRequest != NULL
      modifies this
      ensures Valid() && distinct == old(distinct) && |old(q)| > 0 && q == old(q)[1..] &&
          thisRequest == if |q| > 0 then q[0] else NULL
      ensures old(q)[0] < |old(req)| && req == old(req)[old(q)[0] := old(req)[old(q)[0]].(hd := -1)]
    {
      assert Link(req, q, 0);
      ghost var req0, q0 := req, q;
      req := req[thisRequest := req[thisRequest].(hd := -1)];
      thisRequest := req[thisRequest].next;
      q := q[1..];
      DoneQueue(req0, q0, req, thisRequest);
    }
  }

  function Put(q: seq<nat>, r: nat, k: nat): seq<nat>
    requires k <= |q|
  {
    q[..k] + [r] + q[k..]
  }

  lemma AddedQueue(req: seq<Request>, q: seq<nat>, r: nat, k: nat, req': seq<Request>, q': seq<nat>, first: int)
    requires k <= |q| && IsQueue(req, if |q| > 0 then q[0] else NULL, q) && Inside(req, q) && r < |req| && r !in q &&
        req[r].next == NULL
    requires q' == Put(q, r, k) && first == q'[0] && |req'| == |req|
    requires forall x {:trigger req'[x]} :: 0 <= x < |req| ==>
               req'[x] == req[x].(next := if x == r then (if k < |q| then q[k] else NULL) else if k > 0 &&
                   x == q[k - 1] then r else req[x].next)
    ensures IsQueue(req', first, q') && Inside(req', q')
  {
    forall i: nat | i < |q'| ensures q'[i] == (if i < k then q[i] else if i == k then r else q[i - 1]) &&
        q'[i] < |req| {
      assert i < k ==> q[i] < |req|;
      assert i > k ==> q[i - 1] < |req|;
    }
    forall i: nat, j: nat | i < j < |q'| ensures q'[i] != q'[j] {
      assert q'[i] == q'[i] && q'[j] == q'[j];
    }
    forall i: nat | i < |q'| ensures Link(req', q', i) {
      if i < k {
        assert Link(req, q, i) && q[i] != r && (i < k - 1 ==> q[i] != q[k - 1]);
      } else if i > k {
        assert Link(req, q, i - 1) && q[i - 1] != r && (k > 0 ==> q[i - 1] != q[k - 1]);
      }
    }
  }

  lemma AddedKeys(req: seq<Request>, q: seq<nat>, r: nat, k: nat, req': seq<Request>, q': seq<nat>)
    requires k <= |q| && Keyed(req, q) && NewKey(req, q, r) && r < |req| == |req'| && q' == Put(q, r, k)
    requires forall x {:trigger req'[x]} :: 0 <= x < |req| ==> req'[x] == req[x].(next := req'[x].next)
    ensures Keyed(req', q')
  {
    forall i: nat | i < |q'| ensures q'[i] == (if i < k then q[i] else if i == k then r else q[i - 1]) &&
        q'[i] < |req| {
      assert i < k ==> q[i] < |req|;
      assert i > k ==> q[i - 1] < |req|;
    }
    forall i: nat, j: nat | i < j < |q'| ensures !SameKey(req'[q'[i]], req'[q'[j]]) {
      assert q'[i] == q'[i] && q'[j] == q'[j];
    }
  }

  lemma SameOrder(req: seq<Request>, req': seq<Request>, a: nat, b: nat)
    requires |req'| == |req| && a < |req| && b < |req| && req'[a] == req[a].(next := req'[a].next) &&
        req'[b] == req[b].(next := req'[b].next)
    ensures InOrder(req'[a], req'[b]) == InOrder(req[a], req[b])
  {
  }

  /** Each new descent was one before, at the same place or one place earlier. */
  lemma DescentFrom(req: seq<Request>, q: seq<nat>, r: nat, k: nat, req': seq<Request>, q': seq<nat>, d: int)
    requires k < |q| && k > 0 && q' == Put(q, r, k) && Fits(req, q, r, k - 1) && |req'| == |req| && Descent(req', q', d)
    requires forall i: nat {:trigger q[i]} :: i < |q| ==> q[i] < |req|
    requires forall x {:trigger req'[x]} :: 0 <= x < |req| ==> req'[x] == req[x].(next := req'[x].next)
    ensures d != k && Descent(req, q, if d < k then d else d - 1)
  {
    assert q'[d] == (if d < k then q[d] else if d == k then r else q[d - 1]);
    assert q'[d + 1] == (if d + 1 < k then q[d + 1] else if d + 1 == k then r else q[d]);
    SameOrder(req, req', q'[d], q'[d + 1]);
  }

  /** A request that fits nowhere and is smaller than the last one is smaller than all in the last sweep. */
  lemma {:induction false} BelowSweep(req: seq<Request>, q: seq<nat>, r: nat, d: nat, j: nat)
    requires 1 <= d < j < |q| && r < |req| && Inside(req, q) && NewKey(req, q, r)
    requires TwoSweeps(req, q) && Descent(req, q, d) && InOrder(req[r], req[q[|q| - 1]])
    requires forall i: nat {:trigger Fits(req, q, r, i)} :: 1 <= i < |q| - 1 ==> !Fits(req, q, r, i)
    ensures q[j] < |req| && InOrder(req[r], req[q[j]])
    decreases |q| - j
  {
    if j < |q| - 1 {
      BelowSweep(req, q, r, d, j + 1);
      assert !Fits(req, q, r, j) && !Descent(req, q, j);
      OrderFacts(req[q[j]], req[r], req[r]);
    }
  }

  lemma AppendedSweeps(req: seq<Request>, q: seq<nat>, r: nat, req': seq<Request>, d: int)
    requires |q| >= 2 && r < |req| == |req'| && Inside(req, q) && NewKey(req, q, r)
    requires TwoSweeps(req, q) && 1 <= d && Descent(req, q, d)
    requires forall i: nat {:trigger Fits(req, q, r, i)} :: 1 <= i < |q| - 1 ==> !Fits(req, q, r, i)
    ensures InOrder(req[q[|q| - 1]], req[r])
  {
    if !InOrder(req[q[|q| - 1]], req[r]) {
      OrderFacts(req[q[|q| - 1]], req[r], req[r]);
      BelowSweep(req, q, r, d, d + 1);
      assert Fits(req, q, r, d);
    }
  }

  lemma AddedSweeps(req: seq<Request>, q: seq<nat>, r: nat, k: nat, req': seq<Request>, q': seq<nat>)
    requires k <= |q| && Keyed(req, q) && NewKey(req, q, r) && r < |req| == |req'| && q' == Put(q, r, k) &&
        TwoSweeps(req, q)
    requires forall x {:trigger req'[x]} :: 0 <= x < |req| ==> req'[x] == req[x].(next := req'[x].next)
    requires if k < |q| then k >= 2 && Fits(req, q, r, k - 1)
             else forall i: nat {:trigger Fits(req, q, r, i)} :: 1 <= i < |q| - 1 ==> !Fits(req, q, r, i)
    ensures TwoSweeps(req', q')
  {
    forall i: int, j: int | 1 <= i < j && Descent(req', q', i) && Descent(req', q', j) ensures false {
      if k < |q| {
        DescentFrom(req, q, r, k, req', q', i);
        DescentFrom(req, q, r, k, req', q', j);
      } else {
        AppendedDescent(req, q, r, req', q', i);
        AppendedDescent(req, q, r, req', q', j);
        assert Descent(req, q, i);
        AppendedSweeps(req, q, r, req', i);
      }
    }
  }

  lemma AppendedDescent(req: seq<Request>, q: seq<nat>, r: nat, req': seq<Request>, q': seq<nat>, d: int)
    requires r < |req| == |req'| && q' == Put(q, r, |q|) && Descent(req', q', d)
    requires forall i: nat {:trigger q[i]} :: i < |q| ==> q[i] < |req|
    requires forall x {:trigger req'[x]} :: 0 <= x < |req| ==> req'[x] == req[x].(next := req'[x].next)
    ensures if d + 1 < |q| then Descent(req, q, d) else d == |q| - 1 && !InOrder(req[q[d]], req[r])
  {
    assert q' == q + [r] && q'[d] == q[d];
    assert q'[d + 1] == if d + 1 < |q| then q[d + 1] else r;
    SameOrder(req, req', q'[d], q'[d + 1]);
  }

  lemma DoneQueue(req: seq<Request>, q: seq<nat>, req': seq<Request>, first: int)
    requires |q| > 0 && q[0] < |req| && IsQueue(req, q[0], q) && Inside(req, q)
    requires req' == req[q[0] := req[q[0]].(hd := -1)] && first == req[q[0]].next
    ensures IsQueue(req', first, q[1..]) && Inside(req', q[1..])
    ensures Keyed(req, q) && TwoSweeps(req, q) ==> Keyed(req', q[1..]) && TwoSweeps(req', q[1..])
  {
    var t := q[1..];
    assert Link(req, q, 0);
    forall i: nat | i < |t| ensures t[i] == q[i + 1] && t[i] < |req| && t[i] != q[0] && Link(req', t, i) {
      assert Link(req, q, i + 1) && q[i + 1] != q[0];
    }
    forall i: nat, j: nat | i < j < |t| ensures t[i] != t[j] {
      assert q[i + 1] != q[j + 1];
    }
    if Keyed(req, q) && TwoSweeps(req, q) {
      forall i: nat, j: nat | i < j < |t| ensures !SameKey(req'[t[i]], req'[t[j]]) {
        assert !SameKey(req[q[i + 1]], req[q[j + 1]]);
      }
      forall i: int, j: int | 1 <= i < j && Descent(req', t, i) && Descent(req', t, j) ensures false {
        assert Descent(req, q, i + 1) && Descent(req, q, j + 1);
      }
    }
  }

  /** With equal keys the list falls apart: of cylinders 0, 5, 2, 4, 4 and then 2 the last goes between the
      two 4s, and the arm goes down twice. */
  lemma EqualKeys(req: seq<Request>, q: seq<nat>)
    requires |req| == 6 && q == [0, 1, 2, 3, 4]
    requires forall i :: 0 <= i < 6 ==> req[i].(next := NULL) == Request(0, [0, 5, 2, 4, 4, 2][i], 0, 0, NULL)
    ensures FirstFit(req, q, 5, 4) && Put(q, 5, 4) == [0, 1, 2, 3, 5, 4]
    ensures InOrder(req[2], req[1]) && InOrder(req[5], req[3])
    ensures Descent(req, Put(q, 5, 4), 1) && Descent(req, Put(q, 5, 4), 3)
  {
    assert req[0].cyl == 0 && req[1].cyl == 5 && req[2].cyl == 2 && req[3].cyl == 4 && req[4].cyl == 4 &&
        req[5].cyl == 2;
    assert Fits(req, q, 5, 3);
  }
}

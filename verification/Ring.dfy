/** The order in which processes exchange: at step `k`, process `p` sends to the one
    `k + 1` places after it and receives from the one `k + 1` places before it. */
module Ring {

  /** Step at which `p` receives from `c`. */
  function Step(n: int, p: int, c: int): (k: int)
    requires 0 <= p < n && 0 <= c < n && c != p
    ensures 0 <= k < n - 1
  {
    if c < p then p - 1 - c else p - 1 - c + n
  }

  /** The process `p` sends to at step `k`. */
  function SendTo(n: int, p: int, k: int): (c: int)
    requires 0 <= p < n && 0 <= k < n - 1
    ensures 0 <= c < n && c != p
  {
    if p + 1 + k < n then p + 1 + k else p + 1 + k - n
  }

  /** The process `p` receives from at step `k`. */
  function RecvFrom(n: int, p: int, k: int): (c: int)
    requires 0 <= p < n && 0 <= k < n - 1
    ensures 0 <= c < n && c != p
  {
    if p - 1 - k >= 0 then p - 1 - k else p - 1 - k + n
  }

  /** `(x + 1) % n` and `(x - 1 + n) % n` move one place on the ring. */
  lemma ModStep(n: int, x: int)
    requires 0 <= x < n
    ensures (x + 1) % n == (if x + 1 < n then x + 1 else 0)
    ensures (x - 1 + n) % n == (if x >= 1 then x - 1 else n - 1)
  {
    if x + 1 == n {
      assert (x + 1) % n == 0;
    }
    if x >= 1 {
      assert x - 1 + n == (x - 1) + 1 * n;
    }
  }

  /** Each ordered pair of processes meets exactly once, at the same step on both sides. */
  lemma PairedOnce(n: int, p: int, q: int, k: int)
    requires 0 <= p < n && 0 <= q < n && p != q && 0 <= k < n - 1
    ensures SendTo(n, p, k) == q <==> RecvFrom(n, q, k) == p
    ensures SendTo(n, p, k) == q <==> k == Step(n, q, p)
  {
  }

  /** Process `p` sends to `c` at one step only, that at which `c` receives from `p`; and
      receives from `c` at one step only. */
  ghost predicate MeetsOnce(n: int, p: int, c: int, sends: seq<int>, recvs: seq<int>)
    requires 0 <= p < n && 0 <= c < n && c != p
  {
    && |sends| == |recvs| == n - 1
    && (forall k :: 0 <= k < n - 1 ==> (sends[k] == c <==> k == Step(n, c, p)))
    && (forall k :: 0 <= k < n - 1 ==> (recvs[k] == c <==> k == Step(n, p, c)))
    && RecvFrom(n, c, Step(n, c, p)) == p
  }

  /** The processes met while walking the ring: none is the process itself. */
  method Targets(n: int, p: int) returns (sends: seq<int>, recvs: seq<int>)
    requires 0 <= p < n
    ensures |sends| == |recvs| == n - 1
    ensures forall k :: 0 <= k < n - 1 ==> sends[k] == SendTo(n, p, k) && recvs[k] == RecvFrom(n, p, k)
    ensures forall c :: 0 <= c < n && c != p ==> MeetsOnce(n, p, c, sends, recvs)
  {
    sends, recvs := [], [];
    ModStep(n, p);
    var csend, crecv := (p + 1) % n, (p - 1 + n) % n;
    for k := 0 to n - 1
      invariant |sends| == |recvs| == k
      invariant forall l :: 0 <= l < k ==> sends[l] == SendTo(n, p, l) && recvs[l] == RecvFrom(n, p, l)
      invariant 0 <= csend < n && 0 <= crecv < n
      invariant k < n - 1 ==> csend == SendTo(n, p, k) && crecv == RecvFrom(n, p, k)
    {
      assert csend != p;
      sends, recvs := sends + [csend], recvs + [crecv];
      ModStep(n, csend);
      ModStep(n, crecv);
      csend, crecv := (csend + 1) % n, (crecv - 1 + n) % n;
    }
    forall c | 0 <= c < n && c != p
      ensures MeetsOnce(n, p, c, sends, recvs)
    {
      forall k | 0 <= k < n - 1
        ensures (sends[k] == c <==> k == Step(n, c, p)) && (recvs[k] == c <==> k == Step(n, p, c))
      {
        PairedOnce(n, p, c, k);
        PairedOnce(n, c, p, k);
      }
    }
  }
}

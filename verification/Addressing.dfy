/**
 IPv4 prefixes as aligned power-of-two blocks (RFC 4632, section 3.1), the
 first-fit search and the host-count arithmetic of orchestrator/allocator.py.
 */
module Addressing {
  import opened Basics

  function Pow2(n: nat): (r: nat)
    ensures r >= 1
  {
    if n == 0 then 1 else 2 * Pow2(n - 1)
  }

  lemma {:induction false} Pow2Sum(a: nat, b: nat)
    ensures Pow2(a + b) == Pow2(a) * Pow2(b)
  {
    if a != 0 { Pow2Sum(a - 1, b); }
  }

  lemma {:induction false} Pow2Grows(a: nat, b: nat)
    requires a < b
    ensures Pow2(a) < Pow2(b)
    decreases b
  {
    if a < b - 1 { Pow2Grows(a, b - 1); }
  }

  const ADDRESS_SPACE: nat := 0x1_0000_0000

  datatype Block = Block(addr: nat, len: nat)

  function Size(len: nat): (r: nat)
    requires len <= 32
    ensures r >= 1
  {
    Pow2(32 - len)
  }

  predicate Aligned(p: Block) {
    p.len <= 32 && p.addr % Size(p.len) == 0 && p.addr + Size(p.len) <= ADDRESS_SPACE
  }

  /** What `ipaddress.ip_network(value, strict=True)` accepts. */
  type Prefix = p: Block | Aligned(p) witness Block(0, 32)

  predicate Overlaps(p: Prefix, q: Prefix) {
    p.addr < q.addr + Size(q.len) && q.addr < p.addr + Size(p.len)
  }

  predicate SubnetOf(p: Prefix, q: Prefix) {
    q.addr <= p.addr && p.addr + Size(p.len) <= q.addr + Size(q.len)
  }

  predicate Contains(p: Prefix, address: nat) {
    p.addr <= address < p.addr + Size(p.len)
  }

  /** Two blocks overlap exactly when some address is in both; one is inside the other when all of its are. */
  lemma BlocksAreAddressSets(p: Prefix, q: Prefix)
    ensures Overlaps(p, q) <==> exists a: nat :: Contains(p, a) && Contains(q, a)
    ensures SubnetOf(p, q) <==> forall a: nat :: Contains(p, a) ==> Contains(q, a)
  {
    var low := if p.addr < q.addr then q.addr else p.addr;
    assert Overlaps(p, q) ==> Contains(p, low) && Contains(q, low);
    assert Contains(p, p.addr) && Contains(p, p.addr + Size(p.len) - 1);
  }

  predicate Blocked(p: Prefix, excluded: set<Prefix>) {
    exists e :: e in excluded && Overlaps(p, e)
  }

  // ----- First fit -----

  datatype AllocationError =
    | BadPrefixLength | PoolExhausted | ScalarExhausted | ScalarOutOfRange | ScalarTaken
    | BadUsers | BadHeadroom | ExceedsSupernet
    | TooFewDevices | DuplicateDevice | BadEndpoints | UnknownDevice | L2Unavailable
    | MissingPool | NotABorder | UnknownVrf | ReservedOutsidePool | NoUsableHosts

  /** How many blocks of length `len` the supernet holds. */
  function BlockCount(supernet: Prefix, len: nat): (n: nat)
    requires supernet.len <= len <= 32
    ensures n >= 1
  {
    Pow2(len - supernet.len)
  }

  lemma DivisibleByFactor(x: nat, a: nat, b: nat)
    requires a > 0 && b > 0 && x % (a * b) == 0
    ensures x % a == 0
  {
    var q := x / (a * b);
    assert x == (a * b) * q;
    assert x == a * (b * q) by { MulAssociates(a, b, q); }
    MultipleHasNoRemainder(a, b * q);
  }

  lemma MulAssociates(a: nat, b: nat, c: nat)
    ensures (a * b) * c == a * (b * c)
  {
  }

  lemma MulIsMonotone(a: int, b: int, c: nat)
    requires a <= b
    ensures a * c <= b * c
  {
    assert (b - a) * c >= 0;
  }

  lemma LessAfterMul(a: int, b: int, c: nat)
    requires a * c < b * c
    ensures a < b
  {
    if b <= a { MulIsMonotone(b, a, c); }
  }

  lemma MultipleHasNoRemainder(a: nat, k: nat)
    requires a > 0
    ensures (a * k) % a == 0 && (a * k) / a == k
  {
    var r := (a * k) % a;
    var q := (a * k) / a;
    assert a * k == a * q + r;
    assert r == (k - q) * a;
    LessAfterMul(k - q, 1, a);
    LessAfterMul(-1, k - q, a);
  }

  lemma SumIsDivisible(x: nat, a: nat, k: nat)
    requires a > 0 && x % a == 0
    ensures (x + k * a) % a == 0
  {
    var q := x / a;
    assert x == a * q;
    assert x + k * a == a * (q + k);
    MultipleHasNoRemainder(a, q + k);
  }

  lemma BlocksFillSupernet(supernet: Prefix, len: nat)
    requires supernet.len <= len <= 32
    ensures Size(supernet.len) == BlockCount(supernet, len) * Size(len)
    ensures supernet.addr % Size(len) == 0
  {
    var count, size := BlockCount(supernet, len), Size(len);
    Pow2Sum(len - supernet.len, 32 - len);
    assert Size(supernet.len) == count * size;
    assert count * size == size * count;
    DivisibleByFactor(supernet.addr, size, count);
  }

  /** The k-th block of `supernet.subnets(new_prefix=len)`. */
  function Candidate(supernet: Prefix, len: nat, k: nat): (p: Prefix)
    requires supernet.len <= len <= 32 && k < BlockCount(supernet, len)
    ensures SubnetOf(p, supernet) && p.len == len
    ensures p.addr == supernet.addr + k * Size(len)
  {
    CandidateFits(supernet, len, k);
    Block(supernet.addr + k * Size(len), len)
  }

  lemma CandidateFits(supernet: Prefix, len: nat, k: nat)
    requires supernet.len <= len <= 32 && k < BlockCount(supernet, len)
    ensures Aligned(Block(supernet.addr + k * Size(len), len))
    ensures supernet.addr + k * Size(len) + Size(len) <= supernet.addr + Size(supernet.len)
    ensures k * Size(len) >= 0
  {
    BlocksFillSupernet(supernet, len);
    SumIsDivisible(supernet.addr, Size(len), k);
    MulIsMonotone(k + 1, BlockCount(supernet, len), Size(len));
    assert (k + 1) * Size(len) == k * Size(len) + Size(len);
  }

  function FirstFitFrom(supernet: Prefix, len: nat, excluded: set<Prefix>, k: nat): (r: Result<Prefix, AllocationError>)
    requires supernet.len <= len <= 32 && k <= BlockCount(supernet, len)
    decreases BlockCount(supernet, len) - k
  {
    if k == BlockCount(supernet, len) then Err(PoolExhausted)
    else
      var candidate := Candidate(supernet, len, k);
      if !Blocked(candidate, excluded) then Ok(candidate)
      else FirstFitFrom(supernet, len, excluded, k + 1)
  }

  function FirstFit(supernet: Prefix, len: nat, excluded: set<Prefix>): (r: Result<Prefix, AllocationError>) {
    if len < supernet.len || len > 32 then Err(BadPrefixLength)
    else FirstFitFrom(supernet, len, excluded, 0)
  }

  /** Every aligned block inside the supernet is one of the candidates. */
  lemma BlockIsCandidate(supernet: Prefix, p: Prefix) returns (k: nat)
    requires supernet.len <= p.len && SubnetOf(p, supernet)
    ensures k < BlockCount(supernet, p.len) && p == Candidate(supernet, p.len, k)
  {
    var size := Size(p.len);
    BlocksFillSupernet(supernet, p.len);
    k := BlockIndex(supernet.addr, p.addr, size);
    assert (k + 1) * size == k * size + size;
    LessAfterMul(k, BlockCount(supernet, p.len), size);
  }

  lemma BlockIndex(low: nat, high: nat, size: nat) returns (k: nat)
    requires size > 0 && low <= high && low % size == 0 && high % size == 0
    ensures high == low + k * size
  {
    var a, b := low / size, high / size;
    assert low == a * size && high == b * size;
    LessAfterMul(a, b + 1, size) by { assert (b + 1) * size == b * size + size; }
    k := b - a;
    assert k * size == b * size - a * size;
  }

  ghost predicate BlockedBelow(supernet: Prefix, len: nat, excluded: set<Prefix>, k: nat)
    requires supernet.len <= len <= 32 && k <= BlockCount(supernet, len)
  {
    forall j: nat :: j < k ==> Blocked(Candidate(supernet, len, j), excluded)
  }

  /** The search stops at the first candidate that is not blocked. */
  lemma {:induction false} FirstFitFromExact(supernet: Prefix, len: nat, excluded: set<Prefix>, k: nat) returns (stop: nat)
    requires supernet.len <= len <= 32 && k <= BlockCount(supernet, len)
    requires BlockedBelow(supernet, len, excluded, k)
    ensures stop <= BlockCount(supernet, len) && BlockedBelow(supernet, len, excluded, stop)
    ensures match FirstFitFrom(supernet, len, excluded, k)
            case Ok(p) => && stop < BlockCount(supernet, len) && p == Candidate(supernet, len, stop)
                          && !Blocked(p, excluded)
            case Err(e) => e == PoolExhausted && stop == BlockCount(supernet, len)
    decreases BlockCount(supernet, len) - k
  {
    stop := k;
    if k < BlockCount(supernet, len) && Blocked(Candidate(supernet, len, k), excluded) {
      stop := FirstFitFromExact(supernet, len, excluded, k + 1);
    }
  }

  /**
   First fit is sound, lowest and complete: it returns the lowest aligned block
   of the requested length inside the supernet that overlaps no exclusion, and
   it reports exhaustion exactly when there is no such block.
   */
  lemma FirstFitExact(supernet: Prefix, len: nat, excluded: set<Prefix>)
    ensures match FirstFit(supernet, len, excluded)
            case Ok(p) =>
              && p.len == len && SubnetOf(p, supernet) && !Blocked(p, excluded)
              && forall q: Prefix :: q.len == len && SubnetOf(q, supernet) && !Blocked(q, excluded) ==> p.addr <= q.addr
            case Err(e) =>
              && (e == BadPrefixLength <==> len < supernet.len || len > 32)
              && (e == BadPrefixLength || e == PoolExhausted)
              && forall q: Prefix :: q.len == len && len >= supernet.len && SubnetOf(q, supernet) ==> Blocked(q, excluded)
  {
    if supernet.len <= len <= 32 {
      var stop := FirstFitFromExact(supernet, len, excluded, 0);
      forall q: Prefix | q.len == len && SubnetOf(q, supernet) && !Blocked(q, excluded)
        ensures FirstFit(supernet, len, excluded).Ok? && FirstFit(supernet, len, excluded).value.addr <= q.addr
      {
        var k := BlockIsCandidate(supernet, q);
        MulIsMonotone(stop, k, Size(len));
      }
    }
  }

  /** The source's search over a list of exclusions; only which blocks it holds matters. */
  method FirstPrefix(supernet: Prefix, len: nat, taken: seq<Prefix>) returns (r: Result<Prefix, AllocationError>)
    ensures r == FirstFit(supernet, len, set e | e in taken)
  {
    if len < supernet.len || len > 32 {
      return Err(BadPrefixLength);
    }
    ghost var excluded := set e | e in taken;
    var k := 0;
    while k < BlockCount(supernet, len)
      invariant k <= BlockCount(supernet, len)
      invariant FirstFit(supernet, len, excluded) == FirstFitFrom(supernet, len, excluded, k)
    {
      var candidate := Candidate(supernet, len, k);
      var clash := OverlapsAny(candidate, taken);
      if !clash {
        return Ok(candidate);
      }
      k := k + 1;
    }
    return Err(PoolExhausted);
  }

  method OverlapsAny(candidate: Prefix, taken: seq<Prefix>) returns (clash: bool)
    ensures clash <==> Blocked(candidate, set e | e in taken)
  {
    for i := 0 to |taken|
      invariant forall k :: 0 <= k < i ==> !Overlaps(candidate, taken[k])
    {
      if Overlaps(candidate, taken[i]) {
        assert taken[i] in (set e | e in taken);
        return true;
      }
    }
    return false;
  }

  // ----- Scalars -----

  function FirstFreeFrom(candidate: int, maximum: int, excluded: set<int>): (r: Result<int, AllocationError>)
    decreases maximum - candidate
  {
    if candidate > maximum then Err(ScalarExhausted)
    else if candidate !in excluded then Ok(candidate)
    else FirstFreeFrom(candidate + 1, maximum, excluded)
  }

  /** The lowest value in range that is not excluded; exhausted exactly when there is none. */
  lemma {:induction false} FirstFreeExact(minimum: int, maximum: int, excluded: set<int>)
    ensures match FirstFreeFrom(minimum, maximum, excluded)
            case Ok(v) => minimum <= v <= maximum && v !in excluded
                          && forall w :: minimum <= w < v ==> w in excluded
            case Err(e) => e == ScalarExhausted && forall w :: minimum <= w <= maximum ==> w in excluded
    decreases maximum - minimum
  {
    if minimum <= maximum && minimum in excluded {
      FirstFreeExact(minimum + 1, maximum, excluded);
    }
  }

  method FirstScalar(minimum: int, maximum: int, excluded: set<int>) returns (r: Result<int, AllocationError>)
    ensures r == FirstFreeFrom(minimum, maximum, excluded)
  {
    var candidate := minimum;
    while candidate <= maximum
      invariant FirstFreeFrom(minimum, maximum, excluded) == FirstFreeFrom(candidate, maximum, excluded)
      decreases maximum - candidate
    {
      if candidate !in excluded {
        return Ok(candidate);
      }
      candidate := candidate + 1;
    }
    return Err(ScalarExhausted);
  }

  // ----- Host counts -----

  /** Hosts of a /len, less its network and broadcast addresses. */
  function UsableHosts(len: int): int
    requires len <= 32
  {
    Pow2(32 - len) - 2
  }

  function HostBitsFrom(bits: nat, required: int): (r: nat)
    ensures r >= bits && UsableHosts(32 - r) >= required
    decreases required - UsableHosts(32 - bits)
  {
    if UsableHosts(32 - bits) >= required then bits
    else HostBitsFrom(bits + 1, required)
  }

  lemma {:induction false} HostBitsLeast(bits: nat, required: int)
    ensures forall len: int {:trigger UsableHosts(len)} ::
              32 - HostBitsFrom(bits, required) < len <= 32 - bits ==> UsableHosts(len) < required
    decreases required - UsableHosts(32 - bits)
  {
    if UsableHosts(32 - bits) < required { HostBitsLeast(bits + 1, required); }
  }

  /**
   `scaled` is the product users * (1 + headroom / 100) as the source's
   floating-point arithmetic computes it; the requirement is its ceiling.
   */
  function Required(scaled: real): int {
    -((-scaled).Floor)
  }

  function HostPrefix(users: int, headroom: int, scaled: real, supernetLen: nat): (r: Result<nat, AllocationError>)
    requires supernetLen <= 32
  {
    if users < 1 then Err(BadUsers)
    else if headroom < 0 || headroom > 500 then Err(BadHeadroom)
    else
      var bits := HostBitsFrom(2, Required(scaled));
      if 32 - bits < supernetLen then Err(ExceedsSupernet) else Ok(32 - bits)
  }

  /**
   The answer is the longest prefix of at most /30 that holds `required` usable
   hosts, and it is refused exactly when that prefix would exceed the supernet.
   */
  lemma HostPrefixExact(users: int, headroom: int, scaled: real, supernetLen: nat)
    requires supernetLen <= 32 && users >= 1 && 0 <= headroom <= 500
    ensures var required := Required(scaled);
            match HostPrefix(users, headroom, scaled, supernetLen)
            case Ok(len) => && supernetLen <= len <= 30 && UsableHosts(len) >= required
                            && forall longer: int {:trigger UsableHosts(longer)} ::
                                 len < longer <= 30 ==> UsableHosts(longer) < required
            case Err(e) => && e == ExceedsSupernet
                           && forall len: int {:trigger UsableHosts(len)} ::
                                supernetLen <= len <= 30 ==> UsableHosts(len) < required
  {
    HostBitsLeast(2, Required(scaled));
  }

  method HostPrefixLoop(users: int, headroom: int, scaled: real, supernetLen: nat) returns (r: Result<nat, AllocationError>)
    requires supernetLen <= 32
    ensures r == HostPrefix(users, headroom, scaled, supernetLen)
  {
    if users < 1 { return Err(BadUsers); }
    if headroom < 0 || headroom > 500 { return Err(BadHeadroom); }
    var required := Required(scaled);
    var hostBits := 2;
    while UsableHosts(32 - hostBits) < required
      invariant HostBitsFrom(2, required) == HostBitsFrom(hostBits, required)
      decreases required - UsableHosts(32 - hostBits)
    {
      hostBits := hostBits + 1;
    }
    var prefix := 32 - hostBits;
    if prefix < supernetLen { return Err(ExceedsSupernet); }
    return Ok(prefix);
  }
}

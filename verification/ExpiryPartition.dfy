/**
 Partitions of the reservation expiry queue: the stable hash of a booking id, computed twice in the
 system, and the plan that tells each process which partitions it polls.
 */
module ExpiryPartition {
  import opened Prelude

  type Byte = b: int | 0 <= b < 256 witness 0
  type Member = seq<Byte>

  const MODULUS: int := 2147483647

  /** Integers up to here are exact both as int64 and as the doubles the queue script computes with. */
  const EXACT_LIMIT: int := 0x20_0000_0000_0000

  // ---------------------------------------------------------------- the hash

  function Pow31(n: nat): nat {
    if n == 0 then 1 else 31 * Pow31(n - 1)
  }

  /** The value of the bytes as a polynomial in 31, most significant byte first. */
  function Polynomial(s: Member): nat {
    if s == [] then 0 else s[0] * Pow31(|s| - 1) + Polynomial(s[1..])
  }

  /** The partition of a member: the polynomial, modulo the prime, modulo the partition count. */
  function PartitionOf(s: Member, count: int): (p: int)
    requires count >= 1
    ensures 0 <= p < count
  {
    Polynomial(s) % MODULUS % count
  }

  lemma {:induction false} PolynomialSnoc(s: Member, b: Byte)
    ensures Polynomial(s + [b]) == Polynomial(s) * 31 + b
  {
    if s == [] {
      assert (s + [b])[1..] == [];
    } else {
      PolynomialSnoc(s[1..], b);
      assert (s + [b])[1..] == s[1..] + [b];
      assert s[0] * Pow31(|s|) == s[0] * Pow31(|s| - 1) * 31;
    }
  }

  lemma ModStep(p: nat, b: Byte)
    ensures (p % MODULUS * 31 + b) % MODULUS == (p * 31 + b) % MODULUS
  {
    var q := p / MODULUS;
    assert p * 31 + b == (p % MODULUS * 31 + b) + MODULUS * (31 * q);
    ModShift(p % MODULUS * 31 + b, 31 * q);
  }

  lemma {:induction false} ModShift(x: nat, k: nat)
    ensures (x + MODULUS * k) % MODULUS == x % MODULUS
  {
    if k > 0 {
      ModShift(x, k - 1);
      assert x + MODULUS * k == (x + MODULUS * (k - 1)) + MODULUS;
    }
  }

  /** ExpiryPartitionIndex, in 64-bit integers. */
  method ExpiryPartitionIndex(s: Member, partitionCount: int) returns (p: int)
    ensures partitionCount >= 1 ==> p == PartitionOf(s, partitionCount)
    ensures partitionCount < 1 ==> p == 0
  {
    if partitionCount <= 1 {
      assert partitionCount == 1 ==> PartitionOf(s, 1) == 0;
      return 0;
    }
    var h, _ := HornerLoop(s);
    p := h % partitionCount;
  }

  /** The same hash in the script that claims due entries; it has no special case for one partition. */
  method ScriptPartitionIndex(s: Member, partitionCount: int) returns (p: int)
    requires partitionCount >= 1
    ensures p == PartitionOf(s, partitionCount)
  {
    var h, _ := HornerLoop(s);
    p := h % partitionCount;
  }

  /** Both hashes accumulate byte by byte; `sums` are the values before each remainder, all in the exact range. */
  method HornerLoop(s: Member) returns (h: int, ghost sums: seq<int>)
    ensures h == Polynomial(s) % MODULUS
    ensures |sums| == |s|
    ensures forall i :: 0 <= i < |s| ==>
              sums[i] == Polynomial(s[..i]) % MODULUS * 31 + s[i] && 0 <= sums[i] < EXACT_LIMIT
  {
    h, sums := 0, [];
    var i := 0;
    while i < |s|
      invariant 0 <= i <= |s|
      invariant h == Polynomial(s[..i]) % MODULUS
      invariant |sums| == i
      invariant forall k :: 0 <= k < i ==>
                  sums[k] == Polynomial(s[..k]) % MODULUS * 31 + s[k] && 0 <= sums[k] < EXACT_LIMIT
    {
      var next := h * 31 + s[i];
      sums := sums + [next];
      assert s[..i + 1] == s[..i] + [s[i]];
      PolynomialSnoc(s[..i], s[i]);
      ModStep(Polynomial(s[..i]), s[i]);
      h := next % MODULUS;
      i := i + 1;
    }
    assert s[..|s|] == s;
  }

  // ---------------------------------------------------------------- the plan

  datatype Config = Config(concurrency: int, count: int, offset: int)

  datatype Plan = Plan(concurrency: int, count: int, offset: int)
  {
    /** The partitions this process polls. */
    predicate Owns(p: int) {
      offset <= p < offset + concurrency
    }
  }

  datatype PlanError = NegativeOffset | ExceedsCount

  const DEFAULT_CONCURRENCY := 4

  /** Invalid settings fall back to defaults; a window outside the partitions is refused. */
  function PlanFromConfig(cfg: Config): (r: Result<Plan, PlanError>)
    ensures r.Success? ==>
              && 1 <= r.value.concurrency
              && (forall p :: r.value.Owns(p) ==> 0 <= p < r.value.count)
    ensures r.Success? ==>
              && r.value.offset == cfg.offset
              && (if cfg.concurrency >= 1 then r.value.concurrency == cfg.concurrency else r.value.concurrency == 4)
              && (if cfg.count >= 1 then r.value.count == cfg.count else r.value.count == r.value.concurrency)
    ensures r.Failure? <==>
              cfg.offset < 0 ||
              var c := if cfg.concurrency < 1 then DEFAULT_CONCURRENCY else cfg.concurrency;
              cfg.offset + c > if cfg.count <= 0 then c else cfg.count
  {
    var concurrency := if cfg.concurrency < 1 then DEFAULT_CONCURRENCY else cfg.concurrency;
    var count := if cfg.count <= 0 then concurrency else cfg.count;
    if cfg.offset < 0 then Failure(NegativeOffset)
    else if cfg.offset + concurrency > count then Failure(ExceedsCount)
    else Success(Plan(concurrency, count, cfg.offset))
  }

  /** Plans laid side by side: each starts where the one before it ends, and the last one ends at `count`. */
  predicate Tile(plans: seq<Plan>, count: int) {
    if plans == [] then
      count == 0
    else
      var last := plans[|plans| - 1];
      last.offset >= 0 && last.concurrency >= 1 && last.offset + last.concurrency == count
      && Tile(plans[..|plans| - 1], last.offset)
  }

  lemma {:induction false} TilesCover(plans: seq<Plan>, count: int, p: int)
    requires Tile(plans, count)
    ensures 0 <= p < count <==> exists i :: 0 <= i < |plans| && plans[i].Owns(p)
    ensures forall i, j :: 0 <= i < j < |plans| ==> !(plans[i].Owns(p) && plans[j].Owns(p))
  {
    if plans != [] {
      var front, last := plans[..|plans| - 1], plans[|plans| - 1];
      TilesCover(front, last.offset, p);
      if 0 <= p < last.offset {
        var i :| 0 <= i < |front| && front[i].Owns(p);
        assert plans[i].Owns(p);
      }
      if last.Owns(p) {
        assert plans[|plans| - 1].Owns(p);
      }
      forall i | 0 <= i < |front| ensures front[i] == plans[i] && (front[i].Owns(p) ==> 0 <= p < last.offset) {
        assert front[i].Owns(p) ==> exists k :: 0 <= k < |front| && front[k].Owns(p);
      }
    }
  }

  /** When the accepted plans of all processes tile the partitions, every booking id has exactly one owner. */
  lemma {:induction false} OneOwner(plans: seq<Plan>, count: int, s: Member) returns (owner: nat)
    requires count >= 1 && Tile(plans, count)
    ensures owner < |plans| && plans[owner].Owns(PartitionOf(s, count))
    ensures forall i :: 0 <= i < |plans| && plans[i].Owns(PartitionOf(s, count)) ==> i == owner
  {
    var p := PartitionOf(s, count);
    TilesCover(plans, count, p);
    owner :| 0 <= owner < |plans| && plans[owner].Owns(p);
  }
}

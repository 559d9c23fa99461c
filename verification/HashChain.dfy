/**
 * The tamper-evident event chain: every row stores the hash of its
 * predecessor and a hash of its own fields, both over a length-prefixed
 * encoding. The hash is an arbitrary function; what is proved is that two
 * different histories with the same tail exhibit a collision of it.
 */
module HashChain {
  import opened BigEndian

  type Bytes = seq<Byte>

  /** SHA-256 and the UTF-8 encoding of text. */
  datatype Codec = Codec(sha: Bytes -> Bytes, utf8: string -> Bytes)

  ghost predicate InjectiveText(codec: Codec) {
    forall s, t :: codec.utf8(s) == codec.utf8(t) ==> s == t
  }

  const ZERO_HASH: Bytes := ToBytes(0, 32)
  const LENGTH_WIDTH: nat := 8
  const I64_LIMIT: int := 0x8000_0000_0000_0000

  /** Each part behind its length as a 64-bit big-endian number. */
  function Encode(parts: seq<Bytes>): Bytes {
    if parts == [] then [] else ToBytes(|parts[0]|, LENGTH_WIDTH) + (parts[0] + Encode(parts[1..]))
  }

  function Digest(codec: Codec, parts: seq<Bytes>): Bytes {
    codec.sha(Encode(parts))
  }

  predicate ShortParts(parts: seq<Bytes>) {
    forall i | 0 <= i < |parts| :: |parts[i]| < Pow256(LENGTH_WIDTH)
  }

  lemma PrefixedEqual(p: Bytes, x: Bytes, q: Bytes, y: Bytes)
    requires p + x == q + y && |p| == |q|
    ensures p == q && x == y
  {
    assert p == (p + x)[..|p|] && q == (q + y)[..|q|];
    assert x == (p + x)[|p|..] && y == (q + y)[|q|..];
  }

  lemma HeadsAgree(a: seq<Bytes>, b: seq<Bytes>)
    requires ShortParts(a) && ShortParts(b) && Encode(a) == Encode(b) && a != [] && b != []
    ensures a[0] == b[0] && Encode(a[1..]) == Encode(b[1..])
  {
    FromToBytes(|a[0]|, LENGTH_WIDTH);
    FromToBytes(|b[0]|, LENGTH_WIDTH);
    var x, y := Encode(a[1..]), Encode(b[1..]);
    assert Encode(a) == ToBytes(|a[0]|, LENGTH_WIDTH) + (a[0] + x)
        && Encode(b) == ToBytes(|b[0]|, LENGTH_WIDTH) + (b[0] + y);
    hide Encode, ToBytes, FromBytes, Pow256, ShortParts;
    PrefixedEqual(ToBytes(|a[0]|, LENGTH_WIDTH), a[0] + x, ToBytes(|b[0]|, LENGTH_WIDTH), b[0] + y);
    PrefixedEqual(a[0], x, b[0], y);
  }

  /** The encoding of a list of byte strings determines the list. */
  lemma {:induction false} EncodeInjective(a: seq<Bytes>, b: seq<Bytes>)
    requires ShortParts(a) && ShortParts(b) && Encode(a) == Encode(b)
    ensures a == b
  {
    if a == [] || b == [] {
    } else {
      HeadsAgree(a, b);
      hide Encode;
      EncodeInjective(a[1..], b[1..]);
      assert a == [a[0]] + a[1..] && b == [b[0]] + b[1..];
    }
  }

  /** One row of the `events` table; its sequence number is its position, from 1. */
  datatype Row = Row(
    eventId: string, workspace: string, eventType: string, occurredAt: int,
    payloadJson: string, previous: Bytes, hash: Bytes)

  /** `i64::to_be_bytes`: two's complement. */
  function TimeBytes(t: int): Bytes {
    ToBytes(t % (2 * I64_LIMIT), 8)
  }

  function HashedParts(codec: Codec, row: Row): seq<Bytes> {
    [row.previous, codec.utf8(row.eventId), codec.utf8(row.workspace), codec.utf8(row.eventType),
     TimeBytes(row.occurredAt), codec.utf8(row.payloadJson)]
  }

  function RowHash(codec: Codec, row: Row): Bytes {
    Digest(codec, HashedParts(codec, row))
  }

  /** The hash the row at position `i` must link to. */
  function Before(rows: seq<Row>, i: nat): Bytes
    requires i <= |rows|
  {
    if i == 0 then ZERO_HASH else rows[i - 1].hash
  }

  function Tail(rows: seq<Row>): Bytes {
    Before(rows, |rows|)
  }

  predicate LinkOk(codec: Codec, previous: Bytes, row: Row) {
    row.previous == previous && row.hash == RowHash(codec, row)
  }

  /** Every row links to its predecessor and carries the hash of its fields. */
  predicate ChainOk(codec: Codec, rows: seq<Row>) {
    forall i {:trigger Before(rows, i)} | 0 <= i < |rows| :: LinkOk(codec, Before(rows, i), rows[i])
  }

  method VerifyHashChain(codec: Codec, rows: seq<Row>) returns (ok: bool)
    ensures ok <==> ChainOk(codec, rows)
  {
    hide RowHash, ZERO_HASH;
    var previous, i := ZERO_HASH, 0;
    while i < |rows|
      invariant 0 <= i <= |rows|
      invariant previous == Before(rows, i)
      invariant forall j {:trigger Before(rows, j)} | 0 <= j < i :: LinkOk(codec, Before(rows, j), rows[j])
    {
      if rows[i].previous != previous {
        return false;
      }
      if rows[i].hash != RowHash(codec, rows[i]) {
        return false;
      }
      previous := rows[i].hash;
      i := i + 1;
    }
    return true;
  }

  lemma ChainAppend(codec: Codec, rows: seq<Row>, row: Row)
    ensures ChainOk(codec, rows + [row]) <==> ChainOk(codec, rows) && LinkOk(codec, Tail(rows), row)
  {
    hide RowHash;
    var longer := rows + [row];
    assert forall i {:trigger Before(rows, i)} {:trigger Before(longer, i)} | 0 <= i < |rows| ::
        longer[i] == rows[i] && Before(longer, i) == Before(rows, i);
    assert longer[|rows|] == row && Before(longer, |rows|) == Tail(rows);
  }

  /** Times are 64-bit and texts short enough for the 64-bit length prefix. */
  predicate RowFits(codec: Codec, row: Row) {
    -I64_LIMIT <= row.occurredAt < I64_LIMIT && ShortParts(HashedParts(codec, row))
  }

  predicate RowsFit(codec: Codec, rows: seq<Row>) {
    forall i | 0 <= i < |rows| :: RowFits(codec, rows[i])
  }

  lemma EightBytes()
    ensures Pow256(8) == 2 * I64_LIMIT
  {
    assert Pow256(1) == 256 && Pow256(2) == 256 * Pow256(1) && Pow256(3) == 256 * Pow256(2);
    assert Pow256(4) == 256 * Pow256(3) && Pow256(5) == 256 * Pow256(4) && Pow256(6) == 256 * Pow256(5);
    assert Pow256(7) == 256 * Pow256(6) && Pow256(8) == 256 * Pow256(7);
  }

  lemma TwosComplement(t: int)
    requires -I64_LIMIT <= t < I64_LIMIT
    ensures t % (2 * I64_LIMIT) == if t < 0 then t + 2 * I64_LIMIT else t
  {
  }

  lemma TimeBytesInjective(s: int, t: int)
    requires -I64_LIMIT <= s < I64_LIMIT && -I64_LIMIT <= t < I64_LIMIT
    requires TimeBytes(s) == TimeBytes(t)
    ensures s == t
  {
    hide ToBytes, FromBytes, Pow256;
    EightBytes();
    TwosComplement(s);
    TwosComplement(t);
    FromToBytes(s % (2 * I64_LIMIT), 8);
    FromToBytes(t % (2 * I64_LIMIT), 8);
  }

  lemma RowDetermined(codec: Codec, r: Row, s: Row)
    requires InjectiveText(codec) && RowFits(codec, r) && RowFits(codec, s)
    requires Encode(HashedParts(codec, r)) == Encode(HashedParts(codec, s)) && r.hash == s.hash
    ensures r == s
  {
    var p, q := HashedParts(codec, r), HashedParts(codec, s);
    EncodeInjective(p, q);
    hide Encode, ShortParts, TimeBytes;
    assert p[0] == q[0] && p[1] == q[1] && p[2] == q[2] && p[3] == q[3] && p[4] == q[4] && p[5] == q[5];
    TimeBytesInjective(r.occurredAt, s.occurredAt);
  }

  lemma SplitLast(codec: Codec, rows: seq<Row>) returns (init: seq<Row>, last: Row)
    requires RowsFit(codec, rows) && ChainOk(codec, rows) && rows != []
    ensures rows == init + [last] && |init| == |rows| - 1
    ensures RowsFit(codec, init) && ChainOk(codec, init) && RowFits(codec, last)
    ensures LinkOk(codec, Tail(init), last) && Tail(rows) == last.hash
  {
    hide RowHash, ZERO_HASH, RowFits;
    init, last := rows[..|rows| - 1], rows[|rows| - 1];
    assert rows == init + [last];
    ChainAppend(codec, init, last);
  }

  /**
   * The last hash of a verified log pins down the whole log: two verified logs
   * that end in the same hash are identical, or the hash function has a
   * collision (`x` and `y`), or it reaches the zero hash (at `x`).
   */
  lemma {:induction false} TailPinsHistory(codec: Codec, a: seq<Row>, b: seq<Row>) returns (x: Bytes, y: Bytes)
    requires InjectiveText(codec) && RowsFit(codec, a) && RowsFit(codec, b)
    requires ChainOk(codec, a) && ChainOk(codec, b) && Tail(a) == Tail(b)
    ensures a == b || (x != y && codec.sha(x) == codec.sha(y)) || codec.sha(x) == ZERO_HASH
    decreases |a|
  {
    hide Encode, HashedParts, RowFits, InjectiveText, RowsFit, ChainOk, ZERO_HASH;
    x, y := [], [];
    if a == [] && b == [] {
    } else if a == [] {
      var init, last := SplitLast(codec, b);
      x := Encode(HashedParts(codec, last));
    } else if b == [] {
      var init, last := SplitLast(codec, a);
      x := Encode(HashedParts(codec, last));
    } else {
      var initA, lastA := SplitLast(codec, a);
      var initB, lastB := SplitLast(codec, b);
      x, y := Encode(HashedParts(codec, lastA)), Encode(HashedParts(codec, lastB));
      if x == y {
        RowDetermined(codec, lastA, lastB);
        x, y := TailPinsHistory(codec, initA, initB);
      }
    }
  }
}

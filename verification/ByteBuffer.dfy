/** Append-only encoding of fixed-width values and strings, and the cursor that reads them back. */
module ByteBuffers {
  import opened Machine

  /** A read past the end fails, and so does a value the reader has no type for. */
  datatype Result<+T> = Ok(value: T) | Truncated | Unsupported {
    predicate IsFailure() { !Ok? }
    function PropagateFailure<U>(): Result<U> requires !Ok? { if Truncated? then Truncated else Unsupported }
    function Extract(): T requires Ok? { value }
  }

  // ---------------------------------------------------------------- fixed-width values

  /** The `w` bytes of a value in memory, low byte first. */
  function Bytes(v: nat, w: nat): (bs: seq<Byte>)
    ensures |bs| == w
  {
    if w == 0 then [] else [v % 256] + Bytes(v / 256, w - 1)
  }

  function Value(bs: seq<Byte>): (v: nat)
    ensures v < Pow256(|bs|)
  {
    if bs == [] then 0 else bs[0] + 256 * Value(bs[1..])
  }

  /** The unsigned value with the same bytes as a signed one. */
  function Unsigned(v: int, w: nat): (u: nat)
    requires w > 0 && -128 * Pow256(w - 1) <= v < 128 * Pow256(w - 1)
    ensures u < Pow256(w)
  {
    if v < 0 then v + Pow256(w) else v
  }

  function Signed(u: nat, w: nat): (v: int)
    requires w > 0 && u < Pow256(w)
    ensures -128 * Pow256(w - 1) <= v < 128 * Pow256(w - 1)
  {
    if u >= 128 * Pow256(w - 1) then u - Pow256(w) else u
  }

  lemma {:induction false} BytesValue(v: nat, w: nat)
    requires v < Pow256(w)
    ensures Value(Bytes(v, w)) == v
  {
    if w > 0 {
      BytesValue(v / 256, w - 1);
      assert Bytes(v, w)[1..] == Bytes(v / 256, w - 1);
    }
  }

  lemma {:induction false} ValueBytes(bs: seq<Byte>)
    ensures Bytes(Value(bs), |bs|) == bs
  {
    if bs != [] {
      ValueBytes(bs[1..]);
      assert bs == [bs[0]] + bs[1..];
    }
  }

  // ---------------------------------------------------------------- what a cursor reads

  /** The value of the next `w` bytes and the bytes behind them. */
  function Next(bs: seq<Byte>, w: nat): (r: Result<(nat, seq<Byte>)>)
    ensures if w <= |bs| then r.Ok? else r == Truncated
    ensures r.Ok? ==> r.value.0 < Pow256(w) && |r.value.1| == |bs| - w
  {
    if w > |bs| then Truncated else Ok((Value(bs[..w]), bs[w..]))
  }

  function NextSigned(bs: seq<Byte>, w: nat): (r: Result<(int, seq<Byte>)>)
    requires w > 0
    ensures if w <= |bs| then r.Ok? && |r.value.1| == |bs| - w else r == Truncated
  {
    var r :- Next(bs, w);
    Ok((Signed(r.0, w), r.1))
  }

  /** A string is its length in four bytes and its bytes. */
  function StringBytes(s: seq<Byte>): seq<Byte>
    requires |s| < Pow256(4)
  {
    Bytes(|s|, 4) + s
  }

  function NextString(bs: seq<Byte>): (r: Result<(seq<Byte>, seq<Byte>)>)
    ensures r.Ok? ==> |r.value.1| <= |bs| && |r.value.0| < Pow256(4)
    ensures !r.Unsupported?
  {
    var n :- Next(bs, 4);
    if n.0 > |n.1| then Truncated else Ok((n.1[..n.0], n.1[n.0..]))
  }

  lemma NextOfBytes(v: nat, w: nat, rest: seq<Byte>)
    requires v < Pow256(w)
    ensures Next(Bytes(v, w) + rest, w) == Ok((v, rest))
  {
    BytesValue(v, w);
    var bs := Bytes(v, w) + rest;
    assert bs[..w] == Bytes(v, w) && bs[w..] == rest;
  }

  lemma NextOfSigned(v: int, w: nat, rest: seq<Byte>)
    requires w > 0 && -128 * Pow256(w - 1) <= v < 128 * Pow256(w - 1)
    ensures NextSigned(Bytes(Unsigned(v, w), w) + rest, w) == Ok((v, rest))
  {
    NextOfBytes(Unsigned(v, w), w, rest);
  }

  lemma NextOfString(s: seq<Byte>, rest: seq<Byte>)
    requires |s| < Pow256(4)
    ensures NextString(StringBytes(s) + rest) == Ok((s, rest))
  {
    assert StringBytes(s) + rest == Bytes(|s|, 4) + (s + rest);
    NextOfBytes(|s|, 4, s + rest);
    assert (s + rest)[..|s|] == s && (s + rest)[|s|..] == rest;
  }

  // ---------------------------------------------------------------- writer and reader

  class ByteWriter {
    var buf: seq<Byte>

    constructor ()
      ensures buf == []
    {
      buf := [];
    }

    method PutUnsigned(v: nat, w: nat)
      requires v < Pow256(w)
      modifies this
      ensures buf == old(buf) + Bytes(v, w)
    {
      buf := buf + Bytes(v, w);
    }

    method PutSigned(v: int, w: nat)
      requires w > 0 && -128 * Pow256(w - 1) <= v < 128 * Pow256(w - 1)
      modifies this
      ensures buf == old(buf) + Bytes(Unsigned(v, w), w)
    {
      buf := buf + Bytes(Unsigned(v, w), w);
    }

    method PutString(s: seq<Byte>)
      requires |s| < Pow256(4)
      modifies this
      ensures buf == old(buf) + StringBytes(s)
    {
      PutUnsigned(|s|, 4);
      buf := buf + s;
    }
  }

  /** Every read checks that the bytes are there before it moves. */
  class ByteReader {
    const data: seq<Byte>
    var pos: nat

    ghost predicate Valid()
      reads this
    {
      pos <= |data|
    }

    /** The bytes not yet read. */
    function Rest(): (r: seq<Byte>)
      reads this
      requires Valid()
      ensures |r| == |data| - pos
    {
      data[pos..]
    }

    constructor (data: seq<Byte>)
      ensures Valid() && Rest() == data && pos == 0
    {
      this.data, pos := data, 0;
    }

    method GetUnsigned(w: nat) returns (r: Result<nat>)
      requires Valid()
      modifies this
      ensures Valid() && old(pos) <= pos
      ensures match Next(old(Rest()), w)
              case Ok((v, rest)) => r == Ok(v) && Rest() == rest && pos == old(pos) + w
              case _ => r == Truncated && pos == old(pos)
    {
      if pos + w > |data| {
        return Truncated;
      }
      assert Rest()[..w] == data[pos..pos + w];
      r := Ok(Value(data[pos..pos + w]));
      pos := pos + w;
    }

    method GetSigned(w: nat) returns (r: Result<int>)
      requires Valid() && w > 0
      modifies this
      ensures Valid() && old(pos) <= pos
      ensures match NextSigned(old(Rest()), w)
              case Ok((v, rest)) => r == Ok(v) && Rest() == rest && pos == old(pos) + w
              case _ => r == Truncated && pos == old(pos)
    {
      var u := GetUnsigned(w);
      r := if !u.Ok? then Truncated else Ok(Signed(u.value, w));
    }

    method GetString() returns (r: Result<seq<Byte>>)
      requires Valid()
      modifies this
      ensures Valid() && old(pos) <= pos
      ensures match NextString(old(Rest()))
              case Ok((s, rest)) => r == Ok(s) && Rest() == rest
              case _ => r == Truncated
    {
      var n := GetUnsigned(4);
      if !n.Ok? || pos + n.value > |data| {
        return Truncated;
      }
      assert Rest()[..n.value] == data[pos..pos + n.value];
      r := Ok(data[pos..pos + n.value]);
      pos := pos + n.value;
    }
  }
}

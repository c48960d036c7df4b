/**
 Laws of the parser. Parsing a concatenation is parsing its parts in turn, so
 fields the message does not know can stand anywhere between the others, and a
 repeated number may come in any mix of packed and unpacked pieces.
 */
module WireLaws {
  import opened WireVarint
  import opened WireSkip
  import opened WireDecode

  // ---- reading depends only on the bytes read ----

  lemma {:induction false} ReadFromLocal(a: seq<byte>, i: nat, b: seq<byte>, j: nat, k: nat, acc: uint64)
    requires ReadFrom(a, i, k, acc).Ok?
    requires var n := ReadFrom(a, i, k, acc).value.1 - i; j + n <= |b| && b[j..j + n] == a[i..i + n]
    ensures ReadFrom(b, j, k, acc)
         == Ok((ReadFrom(a, i, k, acc).value.0, ReadFrom(a, i, k, acc).value.1 - i + j))
    decreases 10 - k
  {
    var n := ReadFrom(a, i, k, acc).value.1 - i;
    assert b[j] == b[j..j + n][0] == a[i..i + n][0] == a[i];
    if a[i] >= 128 {
      assert b[j + 1..j + n] == b[j..j + n][1..] == a[i..i + n][1..] == a[i + 1..i + n];
      ReadFromLocal(a, i + 1, b, j + 1, k + 1, (acc + a[i] % 128 * Pow128(k)) % TWO64);
    }
  }

  lemma ReadExtend(a: seq<byte>, b: seq<byte>, i: nat)
    requires Read(a, i).Ok?
    ensures Read(a + b, i) == Read(a, i)
  {
    var n := Read(a, i).value.1;
    assert (a + b)[i..n] == a[i..n];
    ReadFromLocal(a, i, a + b, i, 0, 0);
  }

  lemma ReadBehind(a: seq<byte>, b: seq<byte>, j: nat)
    requires Read(b, j).Ok?
    ensures Read(a + b, |a| + j) == Ok((Read(b, j).value.0, |a| + Read(b, j).value.1))
  {
    var n := Read(b, j).value.1;
    assert (a + b)[|a| + j..|a| + n] == b[j..n];
    ReadFromLocal(b, j, a + b, |a| + j, 0, 0);
  }

  lemma ReadAlone(a: seq<byte>, b: seq<byte>, j: nat)
    requires Read(a + b, |a| + j).Ok?
    ensures Read(b, j).Ok?
  {
    var n := Read(a + b, |a| + j).value.1;
    assert (a + b)[|a| + j..n] == b[j..n - |a|];
    ReadFromLocal(a + b, |a| + j, b, j, 0, 0);
  }

  lemma ReadShift(a: seq<byte>, b: seq<byte>, j: nat)
    ensures Read(b, j).Ok? <==> Read(a + b, |a| + j).Ok?
    ensures Read(b, j).Ok? ==> Read(a + b, |a| + j) == Ok((Read(b, j).value.0, |a| + Read(b, j).value.1))
  {
    if Read(b, j).Ok? { ReadBehind(a, b, j); }
    if Read(a + b, |a| + j).Ok? { ReadAlone(a, b, j); }
  }

  lemma LeafExtend(a: seq<byte>, b: seq<byte>, wt: nat, n: nat)
    requires wt != 3 && LeafEnd(a, wt, n).Ok?
    ensures LeafEnd(a + b, wt, n) == LeafEnd(a, wt, n)
  {
    if wt == 0 || wt == 2 { ReadExtend(a, b, n); }
  }

  lemma {:induction false} FieldExtend(a: seq<byte>, b: seq<byte>, i: nat)
    requires FieldEnd(a, i).Ok?
    ensures FieldEnd(a + b, i) == FieldEnd(a, i)
    decreases Left(a, i), 0
  {
    ReadExtend(a, b, i);
    var p := Read(a, i).value;
    if p.0 % 8 == 3 { GroupExtend(a, b, p.1); } else { LeafExtend(a, b, p.0 % 8, p.1); }
  }

  lemma {:induction false} GroupExtend(a: seq<byte>, b: seq<byte>, i: nat)
    requires GroupEnd(a, i).Ok?
    ensures GroupEnd(a + b, i) == GroupEnd(a, i)
    decreases Left(a, i), 1
  {
    ReadExtend(a, b, i);
    if Read(a, i).value.0 % 8 != 4 {
      FieldExtend(a, b, i);
      GroupExtend(a, b, FieldEnd(a, i).value);
    }
  }

  // ---- one round of the parser, with more input before or behind ----

  lemma {:induction false} PackedExtend<M>(sc: Schema<M>, a: seq<byte>, b: seq<byte>, i: nat, post: nat, num: int, m: M)
    requires i <= |a| && Packed(sc, a, i, post, num, m).Ok?
    ensures Packed(sc, a + b, i, post, num, m) == Packed(sc, a, i, post, num, m)
    decreases |a| - i
  {
    if i < post {
      ReadExtend(a, b, i);
      var p := Read(a, i).value;
      PackedExtend(sc, a, b, p.1, post, num, sc.onVarint(m, num, p.0));
    }
  }

  /** A result at an index of `b` is the same result at the index behind `a`. */
  ghost predicate Shifted<M>(r: Result<(M, nat)>, r': Result<(M, nat)>, off: nat) {
    (r.Ok? <==> r'.Ok?) && (r.Ok? ==> r' == Ok((r.value.0, off + r.value.1)))
  }

  lemma {:induction false} PackedShift<M>(sc: Schema<M>, a: seq<byte>, b: seq<byte>, i: nat, post: nat, num: int, m: M)
    requires i <= |b|
    ensures Shifted(Packed(sc, b, i, post, num, m), Packed(sc, a + b, |a| + i, |a| + post, num, m), |a|)
    decreases |b| - i
  {
    if i < post {
      ReadShift(a, b, i);
      if Read(b, i).Ok? {
        var p := Read(b, i).value;
        var m' := sc.onVarint(m, num, p.0);
        assert Packed(sc, b, i, post, num, m) == Packed(sc, b, p.1, post, num, m');
        assert Packed(sc, a + b, |a| + i, |a| + post, num, m) == Packed(sc, a + b, |a| + p.1, |a| + post, num, m');
        PackedShift(sc, a, b, p.1, post, num, m');
      }
    }
  }

  lemma SkippedExtend(a: seq<byte>, b: seq<byte>, i: nat)
    requires i < |a| && Skipped(a, i).Ok?
    ensures Skipped(a + b, i) == Skipped(a, i)
  {
    assert (a + b)[i..] == a[i..] + b;
    FieldExtend(a[i..], b, 0);
  }

  lemma SkippedShift(a: seq<byte>, b: seq<byte>, j: nat)
    requires j < |b| && |a + b| < TWO63
    ensures Skipped(b, j).Ok? <==> Skipped(a + b, |a| + j).Ok?
    ensures Skipped(b, j).Ok? ==> Skipped(a + b, |a| + j) == Ok(|a| + Skipped(b, j).value)
  {
    assert (a + b)[|a| + j..] == b[j..];
  }

  lemma DispatchExtend<M>(sc: Schema<M>, a: seq<byte>, b: seq<byte>, i: nat, n: nat, num: int, wt: nat, m: M)
    requires i < n <= |a| && Dispatch(sc, a, i, n, num, wt, m).Ok?
    ensures Dispatch(sc, a + b, i, n, num, wt, m) == Dispatch(sc, a, i, n, num, wt, m)
  {
    var kind := sc.kind(num);
    if kind.Unknown? {
      SkippedExtend(a, b, i);
      assert (a + b)[i..Skipped(a, i).value] == a[i..Skipped(a, i).value];
    } else {
      ReadExtend(a, b, n);
      if wt == 2 && !kind.VarintField? {
        var p := Payload(a, n).value;
        if kind.PackableField? { PackedExtend(sc, a, b, p.0, p.1, num, m); }
        else { assert (a + b)[p.0..p.1] == a[p.0..p.1]; }
      }
    }
  }

  lemma PayloadShift(a: seq<byte>, b: seq<byte>, n: nat)
    requires |a + b| < TWO63
    ensures var r, r' := Payload(b, n), Payload(a + b, |a| + n);
            (r.Ok? <==> r'.Ok?) && (r.Ok? ==> r' == Ok((|a| + r.value.0, |a| + r.value.1)))
  {
    ReadShift(a, b, n);
  }

  lemma UnknownShift<M>(sc: Schema<M>, a: seq<byte>, b: seq<byte>, i: nat, n: nat, num: int, wt: nat, m: M)
    requires i < n <= |b| && |a + b| < TWO63 && sc.kind(num).Unknown?
    ensures Shifted(Dispatch(sc, b, i, n, num, wt, m), Dispatch(sc, a + b, |a| + i, |a| + n, num, wt, m), |a|)
  {
    SkippedShift(a, b, i);
    if Skipped(b, i).Ok? {
      assert (a + b)[|a| + i..|a| + Skipped(b, i).value] == b[i..Skipped(b, i).value];
    }
  }

  lemma BytesShift<M>(sc: Schema<M>, a: seq<byte>, b: seq<byte>, i: nat, n: nat, num: int, m: M)
    requires i < n <= |b| && |a + b| < TWO63 && !sc.kind(num).Unknown? && !sc.kind(num).VarintField?
    ensures Shifted(Dispatch(sc, b, i, n, num, 2, m), Dispatch(sc, a + b, |a| + i, |a| + n, num, 2, m), |a|)
  {
    PayloadShift(a, b, n);
    if Payload(b, n).Ok? {
      var p := Payload(b, n).value;
      if sc.kind(num).PackableField? { PackedShift(sc, a, b, p.0, p.1, num, m); }
      else { assert (a + b)[|a| + p.0..|a| + p.1] == b[p.0..p.1]; }
    }
  }

  lemma DispatchShift<M>(sc: Schema<M>, a: seq<byte>, b: seq<byte>, i: nat, n: nat, num: int, wt: nat, m: M)
    requires i < n <= |b| && |a + b| < TWO63
    ensures Shifted(Dispatch(sc, b, i, n, num, wt, m), Dispatch(sc, a + b, |a| + i, |a| + n, num, wt, m), |a|)
  {
    if sc.kind(num).Unknown? { UnknownShift(sc, a, b, i, n, num, wt, m); }
    else if wt == 0 { ReadShift(a, b, n); }
    else if wt == 2 && !sc.kind(num).VarintField? { BytesShift(sc, a, b, i, n, num, m); }
  }

  // ---- parsing a concatenation ----

  lemma {:induction false} DecodeExtend<M>(sc: Schema<M>, a: seq<byte>, b: seq<byte>, i: nat, m: M)
    requires i <= |a| && Decode(sc, a, i, m).Ok?
    ensures Decode(sc, a + b, i, m) == Decode(sc, a + b, |a|, Decode(sc, a, i, m).value)
    decreases |a| - i
  {
    if i < |a| {
      ReadExtend(a, b, i);
      var p := Read(a, i).value;
      DispatchExtend(sc, a, b, i, p.1, ToI32(p.0 / 8), p.0 % 8, m);
      var f := DecodeField(sc, a, i, m).value;
      assert DecodeField(sc, a + b, i, m) == Ok(f);
      DecodeExtend(sc, a, b, f.1, f.0);
    }
  }

  lemma TaggedShift<M>(sc: Schema<M>, a: seq<byte>, b: seq<byte>, i: nat, n: nat, num: int, wt: nat, m: M)
    requires i < n <= |b| && |a + b| < TWO63
    ensures Shifted(DecodeTagged(sc, b, i, n, num, wt, m), DecodeTagged(sc, a + b, |a| + i, |a| + n, num, wt, m), |a|)
  {
    DispatchShift(sc, a, b, i, n, num, wt, m);
  }

  lemma FieldByTag<M>(sc: Schema<M>, d: seq<byte>, i: nat, m: M, tag: uint64, n: nat)
    requires i < |d| && Read(d, i) == Ok((tag, n))
    ensures i < n <= |d| && DecodeField(sc, d, i, m) == DecodeTagged(sc, d, i, n, ToI32(tag / 8), tag % 8, m)
  {
  }

  /** A field of `b` is the same field of `d = a + b`, shifted, or fails in both. */
  lemma DecodeFieldShift<M>(sc: Schema<M>, a: seq<byte>, b: seq<byte>, d: seq<byte>, j: nat, k: nat, m: M)
    requires d == a + b && j < |b| && k == |a| + j && |d| < TWO63
    ensures Shifted(DecodeField(sc, b, j, m), DecodeField(sc, d, k, m), |a|)
  {
    ReadShift(a, b, j);
    if Read(b, j).Ok? {
      var tag, n := Read(b, j).value.0, Read(b, j).value.1;
      var num, wt := ToI32(tag / 8), tag % 8;
      FieldByTag(sc, b, j, m, tag, n);
      FieldByTag(sc, d, k, m, tag, |a| + n);
      TaggedShift(sc, a, b, j, n, num, wt, m);
    }
  }

  ghost predicate Agree<M>(r: Result<M>, r': Result<M>) { (r.Ok? <==> r'.Ok?) && (r.Ok? ==> r' == r) }

  lemma {:induction false} DecodeShift<M>(sc: Schema<M>, a: seq<byte>, b: seq<byte>, d: seq<byte>, j: nat, k: nat, m: M)
    requires d == a + b && j <= |b| && k == |a| + j && |d| < TWO63
    ensures Agree(Decode(sc, b, j, m), Decode(sc, d, k, m))
    decreases |b| - j
  {
    if j < |b| {
      DecodeFieldShift(sc, a, b, d, j, k, m);
      var f, f' := DecodeField(sc, b, j, m), DecodeField(sc, d, k, m);
      assert f.Ok? <==> f'.Ok?;
      if f.Ok? {
        assert f' == Ok((f.value.0, |a| + f.value.1));
        DecodeShift(sc, a, b, d, f.value.1, f'.value.1, f.value.0);
      }
    }
  }

  /** If `a` parses into `m1`, then `a + b` parses exactly as `b` does into `m1`. */
  lemma Merge<M>(sc: Schema<M>, a: seq<byte>, b: seq<byte>, m: M)
    requires |a + b| < TWO63 && Decode(sc, a, 0, m).Ok?
    ensures var m1 := Decode(sc, a, 0, m).value;
            var r, r' := Decode(sc, b, 0, m1), Decode(sc, a + b, 0, m);
            (r.Ok? <==> r'.Ok?) && (r.Ok? ==> r' == r)
  {
    DecodeExtend(sc, a, b, 0, m);
    DecodeShift(sc, a, b, a + b, 0, |a|, Decode(sc, a, 0, m).value);
  }

  /** Parsing two parts in turn. */
  lemma Then<M>(sc: Schema<M>, a: seq<byte>, b: seq<byte>, m: M, m1: M, m2: M)
    requires |a + b| < TWO63 && Decode(sc, a, 0, m) == Ok(m1) && Decode(sc, b, 0, m1) == Ok(m2)
    ensures Decode(sc, a + b, 0, m) == Ok(m2)
  {
    Merge(sc, a, b, m);
  }

  lemma Then3<M>(sc: Schema<M>, a: seq<byte>, b: seq<byte>, c: seq<byte>, m: M, m1: M, m2: M, m3: M)
    requires |a + b + c| < TWO63
    requires Decode(sc, a, 0, m) == Ok(m1) && Decode(sc, b, 0, m1) == Ok(m2) && Decode(sc, c, 0, m2) == Ok(m3)
    ensures Decode(sc, a + b + c, 0, m) == Ok(m3)
  {
    Then(sc, a, b, m, m1, m2);
    Then(sc, a + b, c, m, m2, m3);
  }

  // ---- unknown fields ----

  /** `u` is one well-formed field that the schema does not know. */
  predicate UnknownField<M>(sc: Schema<M>, u: seq<byte>) {
    && Read(u, 0).Ok?
    && FieldEnd(u, 0) == Ok(|u|)
    && (var tag := Read(u, 0).value.0;
        tag % 8 != 4 && ToI32(tag / 8) > 0 && sc.kind(ToI32(tag / 8)).Unknown?)
  }

  lemma UnknownDecodes<M>(sc: Schema<M>, u: seq<byte>, m: M)
    requires |u| < TWO63 && UnknownField(sc, u)
    ensures Decode(sc, u, 0, m) == Ok(sc.onUnknown(m, u))
  {
    assert u[0..] == u && u[0..|u|] == u;
    assert Skipped(u, 0) == Ok(|u|);
    assert DecodeField(sc, u, 0, m) == Ok((sc.onUnknown(m, u), |u|));
  }

  /** A well-formed unknown field between two parts of a message changes nothing. */
  lemma UnknownIsIgnored<M>(sc: Schema<M>, a: seq<byte>, u: seq<byte>, b: seq<byte>, m: M)
    requires |a + u + b| < TWO63 && UnknownField(sc, u) && Decode(sc, a, 0, m).Ok?
    requires var m1 := Decode(sc, a, 0, m).value; sc.onUnknown(m1, u) == m1
    ensures var r, r' := Decode(sc, a + b, 0, m), Decode(sc, a + u + b, 0, m);
            (r.Ok? <==> r'.Ok?) && (r.Ok? ==> r' == r)
  {
    var m1 := Decode(sc, a, 0, m).value;
    UnknownDecodes(sc, u, m1);
    Merge(sc, a, u, m);
    Merge(sc, a + u, b, m);
    Merge(sc, a, b, m);
  }
}

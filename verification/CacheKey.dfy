/** The byte encoding behind a cache key: seven length-prefixed fields in one buffer, the first
    four of which also make up the object key. */
module CacheKey {
  import opened CacheTypes

  type Byte = b: nat | b < 256

  type Bytes = seq<Byte>

  /** The fields of a key; a null string is absent. */
  datatype Fields = Fields(
    storeId: Option<Bytes>, modelId: Option<Bytes>,
    objectType: Option<Bytes>, objectId: Option<Bytes>,
    subjectType: Option<Bytes>, subjectId: Option<Bytes>, relation: Option<Bytes>)

  const NAME_MAX: nat := 128
  const TEXT_MAX: nat := 125
  const BUFFER: nat := 1024

  function Text(f: Option<Bytes>): Bytes {
    if f.Some? then f.value else []
  }

  /** The lengths that the encoder insists on. */
  predicate Fits(f: Fields) {
    && |Text(f.storeId)| <= NAME_MAX && |Text(f.modelId)| <= NAME_MAX
    && |Text(f.objectType)| <= TEXT_MAX && |Text(f.objectId)| <= TEXT_MAX
    && |Text(f.subjectType)| <= TEXT_MAX && |Text(f.subjectId)| <= TEXT_MAX && |Text(f.relation)| <= TEXT_MAX
  }

  function ObjectTexts(f: Fields): seq<Bytes> {
    [Text(f.storeId), Text(f.modelId), Text(f.objectType), Text(f.objectId)]
  }

  function SubjectTexts(f: Fields): seq<Bytes> {
    [Text(f.subjectType), Text(f.subjectId), Text(f.relation)]
  }

  predicate Short(l: seq<Bytes>) {
    forall i :: 0 <= i < |l| ==> |l[i]| <= NAME_MAX
  }

  function Encode(l: seq<Bytes>): Bytes
    requires Short(l)
  {
    if l == [] then [] else [|l[0]|] + l[0] + Encode(l[1..])
  }

  /** Reads `n` length-prefixed fields; the fields and what is left, if the bytes suffice. */
  function Decode(b: Bytes, n: nat): Option<(seq<Bytes>, Bytes)>
    decreases n
  {
    if n == 0 then Some(([], b))
    else if |b| == 0 || |b| - 1 < b[0] then None
    else
      var len: nat := b[0];
      match Decode(b[1..][len..], n - 1)
      case None => None
      case Some(rest) => Some(([b[1..][..len]] + rest.0, rest.1))
  }

  // Decoding past one field.
  lemma DecodeField(b: Bytes, x: Bytes, rest: Bytes, l: seq<Bytes>, tail: Bytes)
    requires |x| <= NAME_MAX && b == [|x|] + x + rest && Decode(rest, |l|) == Some((l, tail))
    ensures Decode(b, |l| + 1) == Some(([x] + l, tail))
  {
    assert b[1..] == x + rest;
    assert b[1..][..|x|] == x && b[1..][|x|..] == rest;
  }

  lemma Regroup(a: Bytes, b: Bytes, c: Bytes)
    ensures a + b + c == a + (b + c)
  {
  }

  /** Decoding gives back the encoded fields, whatever follows them. */
  lemma {:induction false} RoundTrip(l: seq<Bytes>, tail: Bytes)
    requires Short(l)
    ensures Decode(Encode(l) + tail, |l|) == Some((l, tail))
    decreases |l|
  {
    if l == [] {
      assert Encode(l) + tail == tail;
    } else {
      var x, rest, b := l[0], l[1..], Encode(l) + tail;
      RoundTrip(rest, tail);
      Regroup([|x|] + x, Encode(rest), tail);
      DecodeField(b, x, Encode(rest) + tail, rest, tail);
      assert [x] + rest == l;
    }
  }

  lemma {:induction false} EncodeSplits(k: seq<Bytes>, l: seq<Bytes>)
    requires Short(k) && Short(l)
    ensures Short(k + l) && Encode(k + l) == Encode(k) + Encode(l)
    decreases |k|
  {
    if k == [] {
      assert k + l == l && Encode(k) + Encode(l) == Encode(l);
    } else {
      EncodeSplits(k[1..], l);
      assert (k + l)[1..] == k[1..] + l;
      Regroup([|k[0]|] + k[0], Encode(k[1..]), Encode(l));
    }
  }

  lemma FitsShort(f: Fields)
    requires Fits(f)
    ensures Short(ObjectTexts(f)) && Short(SubjectTexts(f)) && Short(ObjectTexts(f) + SubjectTexts(f))
  {
  }

  function ObjectBytes(f: Fields): Bytes
    requires Fits(f)
  {
    FitsShort(f);
    Encode(ObjectTexts(f))
  }

  function KeyBytes(f: Fields): Bytes
    requires Fits(f)
  {
    FitsShort(f);
    Encode(ObjectTexts(f) + SubjectTexts(f))
  }

  predicate Blank(a: Option<Bytes>) {
    a == None || a == Some([])
  }

  /** The same field, null and empty being the same. */
  predicate Same(a: Option<Bytes>, b: Option<Bytes>) {
    a == b || (Blank(a) && Blank(b))
  }

  ghost predicate SameObject(f: Fields, g: Fields) {
    && Same(f.storeId, g.storeId) && Same(f.modelId, g.modelId)
    && Same(f.objectType, g.objectType) && Same(f.objectId, g.objectId)
  }

  ghost predicate SameSubject(f: Fields, g: Fields) {
    Same(f.subjectType, g.subjectType) && Same(f.subjectId, g.subjectId) && Same(f.relation, g.relation)
  }

  lemma SameText(a: Option<Bytes>, b: Option<Bytes>)
    ensures Text(a) == Text(b) <==> Same(a, b)
  {
  }

  lemma SameTexts(f: Fields, g: Fields)
    ensures ObjectTexts(f) == ObjectTexts(g) <==> SameObject(f, g)
    ensures SubjectTexts(f) == SubjectTexts(g) <==> SameSubject(f, g)
  {
    SameText(f.storeId, g.storeId);
    SameText(f.modelId, g.modelId);
    SameText(f.objectType, g.objectType);
    SameText(f.objectId, g.objectId);
    SameText(f.subjectType, g.subjectType);
    SameText(f.subjectId, g.subjectId);
    SameText(f.relation, g.relation);
    Listed(ObjectTexts(f), ObjectTexts(g));
    Listed(SubjectTexts(f), SubjectTexts(g));
  }

  lemma Listed(s: seq<Bytes>, t: seq<Bytes>)
    requires |s| == |t| && 3 <= |s| <= 4
    ensures s == t <==> s[0] == t[0] && s[1] == t[1] && s[2] == t[2] && (|s| == 4 ==> s[3] == t[3])
  {
  }

  // Equal bytes come from equal field lists.
  lemma TextsInjective(f: Fields, g: Fields)
    requires Fits(f) && Fits(g)
    ensures KeyBytes(f) == KeyBytes(g) <==> ObjectTexts(f) == ObjectTexts(g) && SubjectTexts(f) == SubjectTexts(g)
    ensures ObjectBytes(f) == ObjectBytes(g) <==> ObjectTexts(f) == ObjectTexts(g)
  {
    FitsShort(f);
    FitsShort(g);
    var first, second := ObjectTexts(f) + SubjectTexts(f), ObjectTexts(g) + SubjectTexts(g);
    RoundTrip(first, []);
    RoundTrip(second, []);
    RoundTrip(ObjectTexts(f), []);
    RoundTrip(ObjectTexts(g), []);
    assert Encode(first) + [] == Encode(first) && Encode(second) + [] == Encode(second);
    assert ObjectBytes(f) + [] == ObjectBytes(f) && ObjectBytes(g) + [] == ObjectBytes(g);
    assert first[..4] == ObjectTexts(f) && first[4..] == SubjectTexts(f);
    assert second[..4] == ObjectTexts(g) && second[4..] == SubjectTexts(g);
  }

  /** Two keys are hashed from the same bytes exactly when store, model, object type, object id,
      subject type, subject id and relation all agree, null and empty being the same; the object
      keys exactly when the first four do. */
  lemma EncodingInjective(f: Fields, g: Fields)
    requires Fits(f) && Fits(g)
    ensures KeyBytes(f) == KeyBytes(g) <==> SameObject(f, g) && SameSubject(f, g)
    ensures ObjectBytes(f) == ObjectBytes(g) <==> SameObject(f, g)
  {
    TextsInjective(f, g);
    SameTexts(f, g);
  }

  /** The object part is a prefix of the whole, and the whole fits the buffer with room. */
  lemma EncodingFits(f: Fields)
    requires Fits(f)
    ensures KeyBytes(f) == ObjectBytes(f) + Encode(SubjectTexts(f))
    ensures |ObjectBytes(f)| <= |KeyBytes(f)| <= 888 < BUFFER
  {
    FitsShort(f);
    EncodeSplits(ObjectTexts(f), SubjectTexts(f));
    EncodeOf4(Text(f.storeId), Text(f.modelId), Text(f.objectType), Text(f.objectId));
    EncodeOf3(Text(f.subjectType), Text(f.subjectId), Text(f.relation));
  }

  lemma EncodeOf3(a: Bytes, b: Bytes, c: Bytes)
    requires Short([a, b, c])
    ensures Encode([a, b, c]) == [|a|] + a + ([|b|] + b + ([|c|] + c))
  {
    assert [a, b, c][1..] == [b, c] && [b, c][1..] == [c];
    assert Encode([c]) == [|c|] + c;
  }

  lemma EncodeOf4(a: Bytes, b: Bytes, c: Bytes, d: Bytes)
    requires Short([a, b, c, d])
    ensures Short([b, c, d]) && Encode([a, b, c, d]) == [|a|] + a + ([|b|] + b + ([|c|] + c + ([|d|] + d)))
  {
    assert [a, b, c, d][1..] == [b, c, d];
    EncodeOf3(b, c, d);
  }

  // ---- Writing the buffer ----------------------------------------------------------------

  /** Appends one field at position `p` and returns the position behind it. */
  method AppendField(buf: array<Byte>, p: nat, field: Option<Bytes>) returns (q: nat)
    requires |Text(field)| <= NAME_MAX && p + 1 + |Text(field)| <= buf.Length
    modifies buf
    ensures q == p + 1 + |Text(field)|
    ensures buf[..q] == old(buf[..p]) + ([|Text(field)|] + Text(field))
  {
    var str := Text(field);
    buf[p] := |str|;
    q := p + 1;
    forall i | 0 <= i < |str| {
      buf[q + i] := str[i];
    }
    q := q + |str|;
    assert buf[..p] == old(buf[..p]) && buf[p + 1..q] == str;
    assert buf[..q] == buf[..p] + [buf[p]] + buf[p + 1..q];
  }

  method WriteObject(buf: array<Byte>, f: Fields) returns (p: nat)
    requires Fits(f) && buf.Length == BUFFER
    modifies buf
    ensures p <= 510 && buf[..p] == ObjectBytes(f)
  {
    FitsShort(f);
    EncodeOf4(Text(f.storeId), Text(f.modelId), Text(f.objectType), Text(f.objectId));
    p := AppendField(buf, 0, f.storeId);
    p := AppendField(buf, p, f.modelId);
    p := AppendField(buf, p, f.objectType);
    p := AppendField(buf, p, f.objectId);
  }

  method WriteSubject(buf: array<Byte>, p: nat, f: Fields) returns (q: nat)
    requires Fits(f) && buf.Length == BUFFER && p <= 510
    modifies buf
    ensures p <= q <= 888 && buf[..q] == old(buf[..p]) + Encode(SubjectTexts(f))
  {
    FitsShort(f);
    EncodeOf3(Text(f.subjectType), Text(f.subjectId), Text(f.relation));
    q := AppendField(buf, p, f.subjectType);
    q := AppendField(buf, q, f.subjectId);
    q := AppendField(buf, q, f.relation);
  }

  /** Builds a key from its fields. The two hashes are given; the fields beside the digest and
      the object key keep whatever they held before. */
  method BuildKey(key: Key, f: Fields, hash64: Bytes -> nat, hash128: Bytes -> (nat, nat)) returns (built: Key)
    requires Fits(f)
    ensures built.objectKey == hash64(ObjectBytes(f))
    ensures (built.low, built.high) == hash128(KeyBytes(f))
    ensures built.relationId == key.relationId && built.pad == key.pad
  {
    EncodingFits(f);
    var buf := new Byte[BUFFER];
    var p := WriteObject(buf, f);
    built := key.(objectKey := hash64(buf[..p]));
    p := WriteSubject(buf, p, f);
    var h := hash128(buf[..p]);
    built := built.(low := h.0, high := h.1);
  }
}

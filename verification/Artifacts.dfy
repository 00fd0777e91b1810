/** Digests, blobs, manifests and tags. */
module Artifacts {
  import opened Basics

  predicate HexChar(c: char) {
    '0' <= c <= '9' || 'a' <= c <= 'f'
  }

  predicate IsHex(s: string) {
    |s| == 64 && forall i :: 0 <= i < |s| ==> HexChar(s[i])
  }

  type Hex = s: string | IsHex(s) witness seq(64, _ => '0')

  /** A parsed digest, "sha256:" and 64 lower-case hexadecimal digits. */
  datatype Digest = Sha256(hex: Hex)

  /** The digest function, left open. */
  type Hash = Bytes -> Digest

  datatype Blob = Blob(digest: Digest, size: int, references: int, storageKey: string)

  datatype Descriptor = Descriptor(mediaType: string, digest: Digest, size: int)

  function DigestsOf(ds: seq<Descriptor>): seq<Digest> {
    seq(|ds|, i requires 0 <= i < |ds| => ds[i].digest)
  }

  function OptionalDigest(d: Option<Descriptor>): seq<Digest> {
    match d case None => [] case Some(x) => [x.digest]
  }

  /** A manifest as parsed from its raw bytes. */
  datatype Manifest = Manifest(
    digest: Digest,
    size: int,
    config: Option<Descriptor>,
    layers: seq<Descriptor>,
    manifests: seq<Descriptor>,
    subject: Option<Descriptor>,
    createdAt: int)
  {
    /** Every digest the manifest names: config, layers, nested manifests, subject. */
    function RefList(): seq<Digest> {
      OptionalDigest(config) + DigestsOf(layers) + DigestsOf(manifests) + OptionalDigest(subject)
    }

    ghost predicate Names(d: Digest) {
      || (config.Some? && config.value.digest == d)
      || (exists i :: 0 <= i < |layers| && layers[i].digest == d)
      || (exists i :: 0 <= i < |manifests| && manifests[i].digest == d)
      || (subject.Some? && subject.value.digest == d)
    }

    method References() returns (refs: seq<Digest>)
      ensures refs == RefList()
      ensures forall d :: d in refs <==> Names(d)
    {
      refs := [];
      if config.Some? { refs := refs + [config.value.digest]; }
      var before := refs;
      for i := 0 to |layers|
        invariant refs == before + DigestsOf(layers)[..i]
      {
        refs := refs + [layers[i].digest];
      }
      before := refs;
      for i := 0 to |manifests|
        invariant refs == before + DigestsOf(manifests)[..i]
      {
        refs := refs + [manifests[i].digest];
      }
      if subject.Some? { refs := refs + [subject.value.digest]; }
      assert refs == RefList();
      ReferencesAreNames(this);
    }
  }

  lemma ReferencesAreNames(m: Manifest)
    ensures forall d :: d in m.RefList() <==> m.Names(d)
  {
    var a, b, c, e := OptionalDigest(m.config), DigestsOf(m.layers), DigestsOf(m.manifests), OptionalDigest(m.subject);
    forall d ensures d in m.RefList() <==> m.Names(d) {
      assert d in m.RefList() <==> d in a || d in b || d in c || d in e;
      assert d in b <==> exists i :: 0 <= i < |m.layers| && m.layers[i].digest == d by {
        if i :| 0 <= i < |m.layers| && m.layers[i].digest == d { assert b[i] == d; }
      }
      assert d in c <==> exists i :: 0 <= i < |m.manifests| && m.manifests[i].digest == d by {
        if i :| 0 <= i < |m.manifests| && m.manifests[i].digest == d { assert c[i] == d; }
      }
    }
  }

  // ---------------------------------------------------------------- tags

  predicate TagHeadChar(c: char) {
    'A' <= c <= 'Z' || 'a' <= c <= 'z' || '0' <= c <= '9' || c == '_'
  }

  /** The pattern of ParseTag: 1 to 128 characters, the first of them not '.' or '-'. */
  predicate ValidTagName(name: string) {
    && 1 <= |name| <= 128
    && TagHeadChar(name[0])
    && forall i :: 0 < i < |name| ==> TagHeadChar(name[i]) || name[i] == '.' || name[i] == '-'
  }

  datatype TagValue = TagValue(name: string, digest: Digest, version: int, immutable: bool)

  function MakeTag(name: string, digest: Digest, immutable: bool): Result<TagValue> {
    if !ValidTagName(name) then Failure(Validation("tag"))
    else Success(TagValue(name, digest, 1, immutable))
  }

  /** An immutable tag may only be moved to the digest it already has. */
  function MovedTag(t: TagValue, to: Digest): Result<TagValue> {
    if t.immutable && t.digest != to then Failure(TagImmutable)
    else Success(t.(digest := to, version := t.version + 1))
  }

  class Tag {
    const name: string
    const immutable: bool
    var digest: Digest
    var version: int

    constructor (v: TagValue)
      ensures Value() == v
    {
      name, immutable, digest, version := v.name, v.immutable, v.digest, v.version;
    }

    function Value(): TagValue
      reads this
    {
      TagValue(name, digest, version, immutable)
    }

    method Move(to: Digest) returns (r: Outcome)
      modifies this
      ensures r.Pass? <==> MovedTag(old(Value()), to).Success?
      ensures r.Pass? ==> Value() == MovedTag(old(Value()), to).value
      ensures r.Fail? ==> r.error == TagImmutable && Value() == old(Value())
    {
      if immutable && digest != to { return Fail(TagImmutable); }
      digest := to;
      version := version + 1;
      return Pass;
    }
  }
}

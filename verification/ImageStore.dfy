/** The content-addressed image store (internal/oci/store.go). */
module ImageStore {
  import opened Basics

  const MAX_BLOB: nat := 8 * GIB
  const MAX_IMAGE: nat := 16 * GIB
  const MAX_LAYERS: nat := 256

  datatype Descriptor = Descriptor(digest: string, size: nat)

  datatype Image = Image(ref: string, digest: string, layers: seq<Descriptor>)

  /** A layer of an image being imported; `content` is what its download yields, if it yields anything. */
  datatype Layer = Layer(desc: Descriptor, content: Option<string>)

  predicate IsHex(c: char) {
    '0' <= c <= '9' || 'a' <= c <= 'f' || 'A' <= c <= 'F'
  }

  predicate IsDigest(s: string) {
    |s| == 71 && "sha256:" <= s && forall i :: 7 <= i < 71 ==> IsHex(s[i])
  }

  /** The digit of a number below 16, small or capital. */
  predicate IsDigit(c: char, n: nat) {
    c == "0123456789abcdef"[n % 16] || c == "0123456789ABCDEF"[n % 16]
  }

  ghost predicate Spells(s: string, ns: seq<nat>) {
    && |ns| == 64 && |s| == 71 && s[..7] == "sha256:"
    && forall i :: 0 <= i < 64 ==> ns[i] < 16 && IsDigit(s[7 + i], ns[i])
  }

  lemma DigitOf(c: char) returns (n: nat)
    requires IsHex(c)
    ensures n < 16 && IsDigit(c, n)
  {
    n := if '0' <= c <= '9' then c as int - '0' as int
         else if 'a' <= c <= 'f' then c as int - 'a' as int + 10 else c as int - 'A' as int + 10;
  }

  /** A digest spells the 64 hexadecimal digits of a hash. */
  lemma DigestsSpellHashes(s: string)
    ensures IsDigest(s) <==> exists ns :: Spells(s, ns)
  {
    if IsDigest(s) {
      var ns: seq<nat> := [];
      for i := 0 to 64
        invariant |ns| == i && forall j :: 0 <= j < i ==> ns[j] < 16 && IsDigit(s[7 + j], ns[j])
      {
        var n := DigitOf(s[7 + i]);
        ns := ns + [n];
      }
      assert Spells(s, ns);
    }
    if exists ns :: Spells(s, ns) {
      var ns :| Spells(s, ns);
      forall i | 7 <= i < 71
        ensures IsHex(s[i])
      {
        assert IsDigit(s[7 + (i - 7)], ns[i - 7]);
      }
    }
  }

  // ----- Layers and records -----

  function Descriptors(ls: seq<Layer>): seq<Descriptor> {
    if ls == [] then [] else Descriptors(ls[..|ls| - 1]) + [ls[|ls| - 1].desc]
  }

  function TotalSize(ls: seq<Layer>): nat {
    if ls == [] then 0 else TotalSize(ls[..|ls| - 1]) + ls[|ls| - 1].desc.size
  }

  /** A hash function without collisions. */
  ghost predicate Injective(hash: string -> string) {
    forall a, b :: hash(a) == hash(b) ==> a == b
  }

  type Blobs = map<string, string>

  predicate Holds(hash: string -> string, blobs: Blobs, d: Descriptor) {
    d.digest in blobs && hash(blobs[d.digest]) == d.digest && |blobs[d.digest]| == d.size
  }

  predicate HoldsAll(hash: string -> string, blobs: Blobs, layers: seq<Descriptor>) {
    forall i :: 0 <= i < |layers| ==> Holds(hash, blobs, layers[i])
  }

  predicate AllDigests(layers: seq<Descriptor>) {
    forall i :: 0 <= i < |layers| ==> IsDigest(layers[i].digest)
  }

  /** Every record's layers are there, with the digest and the size the record gives them. */
  ghost predicate Closed(hash: string -> string, refs: map<string, Image>, blobs: Blobs) {
    forall k :: k in refs ==> HoldsAll(hash, blobs, refs[k].layers)
  }

  /** A blob that somebody can rely on stays as it is. */
  ghost predicate Keeps(hash: string -> string, blobs: Blobs, blobs': Blobs) {
    forall d :: d in blobs && hash(blobs[d]) == d ==> d in blobs' && blobs'[d] == blobs[d]
  }

  lemma KeptClosed(hash: string -> string, refs: map<string, Image>, blobs: Blobs, blobs': Blobs)
    requires Closed(hash, refs, blobs) && Keeps(hash, blobs, blobs')
    ensures Closed(hash, refs, blobs')
  {
    forall k | k in refs
      ensures HoldsAll(hash, blobs', refs[k].layers)
    {
      KeptAll(hash, refs[k].layers, blobs, blobs');
    }
  }

  lemma KeptAll(hash: string -> string, layers: seq<Descriptor>, blobs: Blobs, blobs': Blobs)
    requires HoldsAll(hash, blobs, layers) && Keeps(hash, blobs, blobs')
    ensures HoldsAll(hash, blobs', layers)
  {
    forall i | 0 <= i < |layers|
      ensures Holds(hash, blobs', layers[i])
    {
      assert Holds(hash, blobs, layers[i]);
    }
  }

  /** The download yields what the descriptor says. */
  predicate Yields(hash: string -> string, l: Layer) {
    l.content.Some? && |l.content.value| == l.desc.size && hash(l.content.value) == l.desc.digest
  }

  /** A layer was there before, or one of the first `n` layers with its descriptor could be downloaded and written. */
  ghost predicate Available(hash: string -> string, blobs: Blobs, layers: seq<Layer>, n: nat, written: nat,
      d: Descriptor) {
    || Holds(hash, blobs, d)
    || exists j :: 0 <= j < n && j < |layers| && j < written && layers[j].desc == d && Yields(hash, layers[j])
  }

  ghost predicate LayerFits(hash: string -> string, blobs: Blobs, layers: seq<Layer>, i: nat, written: nat)
    requires i < |layers|
  {
    var d := layers[i].desc;
    IsDigest(d.digest) && d.size <= MAX_BLOB && Available(hash, blobs, layers, i + 1, written, d)
  }

  /** What an import needs to go through. */
  ghost predicate Importable(hash: string -> string, blobs: Blobs, layers: seq<Layer>, written: nat) {
    && |layers| <= MAX_LAYERS && TotalSize(layers) <= MAX_IMAGE
    && forall i :: 0 <= i < |layers| ==> LayerFits(hash, blobs, layers, i, written)
  }

  /** Nothing disappears, and what is new or different is the checked content of a layer. */
  ghost predicate OnlyLayers(hash: string -> string, was: Blobs, blobs: Blobs, layers: seq<Layer>) {
    && was.Keys <= blobs.Keys
    && forall d :: d in blobs && !(d in was && blobs[d] == was[d]) ==> IsLayer(hash, layers, d, blobs[d])
  }

  ghost predicate IsLayer(hash: string -> string, layers: seq<Layer>, d: string, content: string) {
    exists i :: 0 <= i < |layers| && layers[i].desc.digest == d && layers[i].content == Some(content) &&
                Yields(hash, layers[i])
  }

  lemma OnlyLayersNext(hash: string -> string, was: Blobs, blobs: Blobs, blobs': Blobs, layers: seq<Layer>, i: nat)
    requires OnlyLayers(hash, was, blobs, layers) && i < |layers| && Adds(hash, blobs, blobs', layers[i])
    ensures OnlyLayers(hash, was, blobs', layers)
  {
    forall d | d in blobs' && !(d in was && blobs'[d] == was[d])
      ensures IsLayer(hash, layers, d, blobs'[d])
    {
      assert d in blobs && blobs'[d] == blobs[d] ==> IsLayer(hash, layers, d, blobs[d]);
    }
  }

  /** The first `n` layers have been imported; `was` is what was there before. */
  ghost predicate Imported(hash: string -> string, was: Blobs, blobs: Blobs, layers: seq<Layer>, n: nat, written: nat) {
    && n <= |layers| && Keeps(hash, was, blobs) && OnlyLayers(hash, was, blobs, layers)
    && Fetched(hash, was, blobs, layers, n, written) && Accounted(hash, was, blobs, layers, n, written)
  }

  ghost predicate Fetched(hash: string -> string, was: Blobs, blobs: Blobs, layers: seq<Layer>, n: nat, written: nat)
    requires n <= |layers|
  {
    forall i :: 0 <= i < n ==> LayerFits(hash, was, layers, i, written) && Holds(hash, blobs, layers[i].desc)
  }

  ghost predicate Accounted(hash: string -> string, was: Blobs, blobs: Blobs, layers: seq<Layer>, n: nat,
      written: nat) {
    forall d :: Holds(hash, blobs, d) ==> Available(hash, was, layers, n, written, d)
  }

  lemma ImportedHere(hash: string -> string, blobs: Blobs, layers: seq<Layer>, written: nat)
    ensures Imported(hash, blobs, blobs, layers, 0, written)
  {
    assert forall d :: Holds(hash, blobs, d) ==> Available(hash, blobs, layers, 0, written, d);
  }

  /** What is available to layer `n` is what it can take from the store, or download itself. */
  lemma AvailableNext(hash: string -> string, was: Blobs, blobs: Blobs, layers: seq<Layer>, n: nat, written: nat)
    requires Imported(hash, was, blobs, layers, n, written) && n < |layers|
    ensures var l := layers[n];
            Available(hash, was, layers, n + 1, written, l.desc) <==>
                  Holds(hash, blobs, l.desc) || (n < written && Yields(hash, l))
  {
    var d := layers[n].desc;
    if Holds(hash, blobs, d) {
      assert Available(hash, was, layers, n, written, d);
    }
  }

  /** The next layer is kept as it is, or its content is put in place. */
  ghost predicate Adds(hash: string -> string, blobs: Blobs, blobs': Blobs, l: Layer) {
    || blobs' == blobs
    || (l.content.Some? && Yields(hash, l) && blobs' == blobs[l.desc.digest := l.content.value])
  }

  lemma KeepsOn(hash: string -> string, was: Blobs, blobs: Blobs, blobs': Blobs)
    requires Keeps(hash, was, blobs) && Keeps(hash, blobs, blobs')
    ensures Keeps(hash, was, blobs')
  {
  }

  lemma FetchedNext(hash: string -> string, was: Blobs, blobs: Blobs, blobs': Blobs, layers: seq<Layer>, n: nat,
      written: nat)
    requires n < |layers| && Fetched(hash, was, blobs, layers, n, written) && Keeps(hash, blobs, blobs')
    requires LayerFits(hash, was, layers, n, written) && Holds(hash, blobs', layers[n].desc)
    ensures Fetched(hash, was, blobs', layers, n + 1, written)
  {
    forall i | 0 <= i < n + 1
      ensures LayerFits(hash, was, layers, i, written) && Holds(hash, blobs', layers[i].desc)
    {
      assert i < n ==> LayerFits(hash, was, layers, i, written) && Holds(hash, blobs, layers[i].desc);
    }
  }

  lemma AccountedNext(hash: string -> string, was: Blobs, blobs: Blobs, blobs': Blobs, layers: seq<Layer>, n: nat,
      written: nat)
    requires n < |layers| && Accounted(hash, was, blobs, layers, n, written)
    requires Available(hash, was, layers, n + 1, written, layers[n].desc)
    requires forall d :: Holds(hash, blobs', d) ==> Holds(hash, blobs, d) || d == layers[n].desc
    ensures Accounted(hash, was, blobs', layers, n + 1, written)
  {
    forall d | Holds(hash, blobs', d)
      ensures Available(hash, was, layers, n + 1, written, d)
    {
      if d != layers[n].desc {
        AvailableLonger(hash, was, layers, n, written, d);
      }
    }
  }

  lemma AvailableLonger(hash: string -> string, was: Blobs, layers: seq<Layer>, n: nat, written: nat, d: Descriptor)
    requires Available(hash, was, layers, n, written, d)
    ensures Available(hash, was, layers, n + 1, written, d)
  {
  }

  lemma ImportedNext(hash: string -> string, was: Blobs, blobs: Blobs, blobs': Blobs, layers: seq<Layer>, n: nat,
      written: nat)
    requires Imported(hash, was, blobs, layers, n, written) && n < |layers| && Keeps(hash, blobs, blobs')
    requires LayerFits(hash, was, layers, n, written) && Holds(hash, blobs', layers[n].desc)
    requires Adds(hash, blobs, blobs', layers[n])
    requires forall d :: Holds(hash, blobs', d) ==> Holds(hash, blobs, d) || d == layers[n].desc
    ensures Imported(hash, was, blobs', layers, n + 1, written)
  {
    KeepsOn(hash, was, blobs, blobs');
    OnlyLayersNext(hash, was, blobs, blobs', layers, n);
    FetchedNext(hash, was, blobs, blobs', layers, n, written);
    AccountedNext(hash, was, blobs, blobs', layers, n, written);
  }

  lemma {:induction false} DescriptorsAt(ls: seq<Layer>)
    ensures |Descriptors(ls)| == |ls| && forall i :: 0 <= i < |ls| ==> Descriptors(ls)[i] == ls[i].desc
  {
    if ls != [] {
      DescriptorsAt(ls[..|ls| - 1]);
    }
  }

  lemma {:induction false} TotalGrows(ls: seq<Layer>, i: nat)
    requires i <= |ls|
    ensures TotalSize(ls[..i]) <= TotalSize(ls)
    decreases |ls|
  {
    if i < |ls| {
      assert ls[..|ls| - 1][..i] == ls[..i];
      TotalGrows(ls[..|ls| - 1], i);
    } else {
      assert ls[..i] == ls;
    }
  }

  lemma PrefixNext(ls: seq<Layer>, i: nat)
    requires i < |ls|
    ensures TotalSize(ls[..i]) + ls[i].desc.size == TotalSize(ls[..i + 1]) <= TotalSize(ls)
    ensures Descriptors(ls[..i + 1]) == Descriptors(ls[..i]) + [ls[i].desc]
  {
    assert ls[..i + 1][..i] == ls[..i];
    TotalGrows(ls, i + 1);
  }

  lemma ImportedAll(hash: string -> string, was: Blobs, blobs: Blobs, layers: seq<Layer>, written: nat)
    requires Imported(hash, was, blobs, layers, |layers|, written)
    ensures HoldsAll(hash, blobs, Descriptors(layers))
    ensures |layers| <= MAX_LAYERS && TotalSize(layers) <= MAX_IMAGE ==> Importable(hash, was, layers, written)
  {
    DescriptorsAt(layers);
  }

  predicate Used(digest: string, layers: seq<Descriptor>) {
    exists i :: 0 <= i < |layers| && layers[i].digest == digest
  }

  class Store {
    const hash: string -> string
    var refs: map<string, Image>   // by the hash of the reference
    var blobs: Blobs

    constructor (hash: string -> string)
      ensures this.hash == hash && refs == map[] && blobs == map[]
    {
      this.hash := hash;
      refs, blobs := map[], map[];
    }

    ghost predicate Valid()
      reads this
    {
      Injective(hash) && Closed(hash, refs, blobs)
    }

    /** A record is found only if all its layers check out. */
    method Get(ref: string) returns (r: Option<Image>)
      ensures r.Some? <==>
                && hash(ref) in refs && HoldsAll(hash, blobs, refs[hash(ref)].layers)
                && AllDigests(refs[hash(ref)].layers)
      ensures r.Some? ==> r.value == refs[hash(ref)]
    {
      if hash(ref) !in refs {
        return None;
      }
      var v := refs[hash(ref)];
      for i := 0 to |v.layers|
        invariant forall j :: 0 <= j < i ==> IsDigest(v.layers[j].digest) && Holds(hash, blobs, v.layers[j])
      {
        if !IsDigest(v.layers[i].digest) || !Holds(hash, blobs, v.layers[i]) {
          return None;
        }
      }
      return Some(v);
    }

    /** Reads at most one byte too many, and puts the blob in place only if size and digest are right. */
    method WriteVerified(d: Descriptor, content: string, written: bool) returns (ok: bool)
      requires Injective(hash)
      modifies this`blobs
      ensures ok <==>
                IsDigest(d.digest) && d.size <= MAX_BLOB && written && |content| == d.size && hash(content) == d.digest
      ensures blobs == if ok then old(blobs)[d.digest := content] else old(blobs)
      ensures Keeps(hash, old(blobs), blobs)
      ensures ok ==> Holds(hash, blobs, d)
    {
      if !IsDigest(d.digest) || d.size > MAX_BLOB || !written {
        return false;
      }
      var copy := if |content| > d.size + 1 then content[..d.size + 1] else content;
      if |copy| != d.size || hash(copy) != d.digest {
        return false;
      }
      blobs := blobs[d.digest := copy];
      return true;
    }

    /** One layer of an import: kept if it is there already, downloaded and checked otherwise. */
    method ImportLayer(l: Layer, written: bool) returns (ok: bool)
      requires Injective(hash)
      modifies this`blobs
      ensures ok <==>
                && IsDigest(l.desc.digest)
                && (Holds(hash, old(blobs), l.desc) || (l.desc.size <= MAX_BLOB && written && Yields(hash, l)))
      ensures Keeps(hash, old(blobs), blobs)
      ensures blobs == if ok && !Holds(hash, old(blobs), l.desc) then old(blobs)[l.desc.digest := l.content.value]
                       else old(blobs)
      ensures ok ==> Holds(hash, blobs, l.desc)
      ensures forall d :: Holds(hash, blobs, d) ==> Holds(hash, old(blobs), d) || d == l.desc
    {
      if !IsDigest(l.desc.digest) {
        return false;
      }
      if Holds(hash, blobs, l.desc) {
        return true;
      }
      if l.content.None? {
        return false;
      }
      ok := WriteVerified(l.desc, l.content.value, written);
    }

    /** Imports the layers in order, up to the first that does not fit. */
    method ImportLayers(layers: seq<Layer>, written: nat) returns (out: seq<Descriptor>, ok: bool)
      requires Injective(hash)
      modifies this`blobs
      ensures Keeps(hash, old(blobs), blobs) && OnlyLayers(hash, old(blobs), blobs, layers)
      ensures ok <==> Importable(hash, old(blobs), layers, written)
      ensures ok ==> out == Descriptors(layers) && HoldsAll(hash, blobs, out)
    {
      out, ok := [], false;
      if |layers| > MAX_LAYERS {
        return;
      }
      var total := 0;
      ghost var was := blobs;
      ImportedHere(hash, blobs, layers, written);
      for i := 0 to |layers|
        invariant Imported(hash, was, blobs, layers, i, written)
        invariant total == TotalSize(layers[..i]) <= MAX_IMAGE && out == Descriptors(layers[..i])
      {
        var l := layers[i];
        PrefixNext(layers, i);
        AvailableNext(hash, was, blobs, layers, i, written);
        if l.desc.size > MAX_BLOB || total > MAX_IMAGE - l.desc.size {
          assert LayerFits(hash, was, layers, i, written) ==> TotalSize(layers) > MAX_IMAGE;
          return out, false;
        }
        total := total + l.desc.size;
        ghost var before := blobs;
        var done := ImportLayer(l, i < written);
        if !done {
          assert !LayerFits(hash, was, layers, i, written);
          return out, false;
        }
        ImportedNext(hash, was, before, blobs, layers, i, written);
        out := out + [l.desc];
      }
      assert layers[..|layers|] == layers;
      ImportedAll(hash, was, blobs, layers, written);
      ok := true;
    }

    /**
      * Imports an image under its digest and under a reference. `written` says up to which layer blob writes succeed,
      * `recorded` how many record writes do. Whatever happens, the store stays closed and no other record changes.
      */
    method Import(ref: string, digest: string, layers: seq<Layer>, written: nat, recorded: nat) returns (ok: bool)
      requires Valid()
      modifies this`refs, this`blobs
      ensures Valid()
      ensures Keeps(hash, old(blobs), blobs) && OnlyLayers(hash, old(blobs), blobs, layers)
      ensures var image := Image(ref, digest, Descriptors(layers));
              && (ok ==> refs == old(refs)[hash(digest) := image][hash(ref) := image])
              && (ok ==> HoldsAll(hash, blobs, image.layers))
              && (!ok ==> refs == if recorded == 1 && Importable(hash, old(blobs), layers, written)
                                  then old(refs)[hash(digest) := image] else old(refs))
      ensures ok <==> recorded >= 2 && Importable(hash, old(blobs), layers, written)
    {
      var out, fetched := ImportLayers(layers, written);
      KeptClosed(hash, refs, old(blobs), blobs);
      if !fetched || recorded < 1 {
        return false;
      }
      var image := Image(ref, digest, out);
      refs := refs[hash(digest) := image];
      if recorded < 2 {
        return false;
      }
      refs := refs[hash(ref) := image];
      return true;
    }

    /**
      * Removes every record of an image, and the blobs that no other record lists. `entries` is the directory listing;
      * after `steps` operations on records or `drops` on blobs the next one fails. Every exit leaves the store closed.
      */
    method Remove(ref: string, entries: seq<string>, steps: nat, drops: nat) returns (ok: bool)
      requires Valid()
      requires forall k :: k in refs <==> k in entries
      modifies this`refs, this`blobs
      ensures Valid()
      // No other image's record is touched, and no blob changes.
      ensures forall k :: k in refs ==> k in old(refs) && refs[k] == old(refs)[k]
      ensures forall d :: d in blobs ==> d in old(blobs) && blobs[d] == old(blobs)[d]
      ensures hash(ref) !in old(refs) ==> !ok && refs == old(refs) && blobs == old(blobs)
      ensures hash(ref) in old(refs) ==>
                var image := old(refs)[hash(ref)];
                && (ok ==> steps >= |entries|)
                && (!AllDigests(image.layers) ==> !ok && refs == old(refs) && blobs == old(blobs))
                && (AllDigests(image.layers) && steps >= |entries| && drops >= |image.layers| ==> ok)
                && (forall k :: k in old(refs) && old(refs)[k].digest != image.digest ==> k in refs)
                && (forall d :: d in old(blobs) && !Used(d, image.layers) ==> d in blobs)
                // Success leaves no record of the image, and one of its blobs only if another record lists it.
                && (ok ==> forall k :: k in refs ==> refs[k].digest != image.digest)
                && (ok ==> forall d :: Used(d, image.layers) && d in blobs ==>
                      exists k :: k in refs && Used(d, refs[k].layers))
    {
      var found := Get(ref);
      if found.None? {
        return false;
      }
      var image := found.value;
      var used: set<string>, read;
      used, read := RemoveRecords(image, entries, steps);
      if !read {
        return false;
      }
      ok := DropBlobs(image, used, drops);
    }

    /** Deletes the image's records and collects what the others use. */
    method RemoveRecords(image: Image, entries: seq<string>, steps: nat) returns (used: set<string>, ok: bool)
      requires Valid() && forall k :: k in refs <==> k in entries
      modifies this`refs
      ensures Valid()
      ensures forall k :: k in refs ==> k in old(refs) && refs[k] == old(refs)[k]
      ensures forall k :: k in old(refs) && old(refs)[k].digest != image.digest ==> k in refs
      ensures ok <==> steps >= |entries|
      ensures ok ==> forall k :: k in refs ==> refs[k].digest != image.digest
      ensures ok ==> forall d :: d in used <==> exists k :: k in refs && Used(d, refs[k].layers)
    {
      used := {};
      for i := 0 to |entries|
        invariant i <= steps
        invariant Valid()
        invariant forall k :: k in refs ==> k in old(refs) && refs[k] == old(refs)[k]
        invariant forall k :: k in old(refs) && old(refs)[k].digest != image.digest ==> k in refs
        invariant forall j :: 0 <= j < i && entries[j] in refs ==> refs[entries[j]].digest != image.digest
        invariant forall j, d :: 0 <= j < i && entries[j] in refs && Used(d, refs[entries[j]].layers) ==> d in used
        invariant forall d :: d in used ==>
                    exists k :: k in refs && refs[k].digest != image.digest && Used(d, refs[k].layers)
      {
        if i == steps {
          return used, false;
        }
        var p := entries[i];
        if p in refs {
          if refs[p].digest == image.digest {
            refs := refs - {p};
          } else {
            used := used + DigestsOf(refs[p].layers);
          }
        }
      }
      ok := true;
    }

    static function DigestsOf(layers: seq<Descriptor>): (s: set<string>)
      ensures forall d :: d in s <==> Used(d, layers)
    {
      set i | 0 <= i < |layers| :: layers[i].digest
    }

    /** Deletes the image's blobs that are not used. */
    method DropBlobs(image: Image, used: set<string>, drops: nat) returns (ok: bool)
      requires Valid() && forall d :: d in used <==> exists k :: k in refs && Used(d, refs[k].layers)
      modifies this`blobs
      ensures Valid()
      ensures forall d :: d in blobs ==> d in old(blobs) && blobs[d] == old(blobs)[d]
      ensures forall d :: d in old(blobs) && !Used(d, image.layers) ==> d in blobs
      ensures drops >= |image.layers| ==> ok
      ensures ok ==> forall d :: Used(d, image.layers) && d in blobs ==>
                exists k :: k in refs && Used(d, refs[k].layers)
    {
      for i := 0 to |image.layers|
        invariant Valid()
        invariant forall d :: d in blobs ==> d in old(blobs) && blobs[d] == old(blobs)[d]
        invariant forall d :: d in old(blobs) && !Used(d, image.layers) ==> d in blobs
        invariant forall j :: 0 <= j < i && image.layers[j].digest in blobs ==> image.layers[j].digest in used
      {
        var d := image.layers[i].digest;
        if d !in used {
          if i >= drops {
            return false;
          }
          assert Used(d, image.layers);
          DropClosed(d);
          blobs := blobs - {d};
        }
      }
      return true;
    }

    lemma DropClosed(d: string)
      requires Valid() && forall k :: k in refs ==> !Used(d, refs[k].layers)
      ensures Closed(hash, refs, blobs - {d})
    {
      forall k | k in refs
        ensures HoldsAll(hash, blobs - {d}, refs[k].layers)
      {
        forall i | 0 <= i < |refs[k].layers|
          ensures Holds(hash, blobs - {d}, refs[k].layers[i])
        {
          assert Holds(hash, blobs, refs[k].layers[i]);
          assert !Used(d, refs[k].layers);
        }
      }
    }
  }
}

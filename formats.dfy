/** Format records as the metadata extractor reports them, and simplify_format (app.py:28-41). */
module Formats {
  import opened Wrappers

  /** One key of a Python dict: missing, present and bound to None, or present with a value. */
  datatype Field<+T> = Absent | Null | Val(v: T) {

    /** `d.get(key)`: a missing key and a key bound to None both read as None. */
    function Get(): (r: Option<T>)
      ensures r.None? <==> !Val?
      ensures Val? ==> r == Some(v)
    {
      if Val? then Some(v) else None
    }

    /** The key occurs in the dict (whatever it is bound to). */
    predicate Present() {
      !Absent?
    }
  }

  /** The entry written by a dict literal `{key: x}`: the key is always there, bound to x. */
  function Store<T>(x: Option<T>): (r: Field<T>)
    ensures r.Present() && r.Get() == x
  {
    match x
    case None => Null
    case Some(y) => Val(y)
  }

  /**
   * One format record. The twelve fields the core reads are named; `otherKeys` holds the names of
   * any further keys the extractor put in the dict (their values are never read); it is meant to be
   * disjoint from the twelve named keys, and a record whose `otherKeys` repeats a named key stands for
   * no Python dict and lies outside the model. Floating-point values (fps, bitrates) are modelled as
   * integers.
   */
  datatype Format = Format(
    formatId: Field<string>,
    ext: Field<string>,
    filesize: Field<int>,
    filesizeApprox: Field<int>,
    resolution: Field<string>,
    fps: Field<int>,
    vcodec: Field<string>,
    acodec: Field<string>,
    vbr: Field<int>,
    abr: Field<int>,
    tbr: Field<int>,
    height: Field<int>,
    otherKeys: set<string>)

  function KeyIf(present: bool, key: string): set<string> {
    if present then {key} else {}
  }

  /** The keys of the dict a record stands for. */
  function Keys(f: Format): set<string> {
    KeyIf(f.formatId.Present(), "format_id") + KeyIf(f.ext.Present(), "ext")
    + KeyIf(f.filesize.Present(), "filesize") + KeyIf(f.filesizeApprox.Present(), "filesize_approx")
    + KeyIf(f.resolution.Present(), "resolution") + KeyIf(f.fps.Present(), "fps")
    + KeyIf(f.vcodec.Present(), "vcodec") + KeyIf(f.acodec.Present(), "acodec")
    + KeyIf(f.vbr.Present(), "vbr") + KeyIf(f.abr.Present(), "abr") + KeyIf(f.tbr.Present(), "tbr")
    + KeyIf(f.height.Present(), "height") + f.otherKeys
  }

  /** Python truthiness of a dict: it is falsy exactly when it has no keys. */
  predicate Truthy(f: Format) {
    || f.formatId.Present() || f.ext.Present() || f.filesize.Present() || f.filesizeApprox.Present()
    || f.resolution.Present() || f.fps.Present() || f.vcodec.Present() || f.acodec.Present()
    || f.vbr.Present() || f.abr.Present() || f.tbr.Present() || f.height.Present() || f.otherKeys != {}
  }

  /** Truthy agrees with the key set: a dict is truthy exactly when it has a key. */
  lemma TruthyIffHasKeys(f: Format)
    ensures Truthy(f) <==> Keys(f) != {}
  {
    if f.otherKeys != {} {
      var k :| k in f.otherKeys;
      assert k in Keys(f);
    }
  }

  /** The eleven keys of a simplified record. */
  const SimplifiedKeys: set<string> :=
    {"format_id", "ext", "filesize", "filesize_approx", "resolution", "fps",
     "vcodec", "acodec", "vbr", "abr", "tbr"}

  /** The record with no keys at all, `{}`. */
  const EmptyRecord: Format :=
    Format(Absent, Absent, Absent, Absent, Absent, Absent, Absent, Absent, Absent, Absent, Absent, Absent, {})

  /**
   * simplify_format: a dict literal over the eleven keys, each bound to `f.get(key)`.
   * The result has exactly those keys, reads back what the input read, and drops
   * `height` and every other key.
   */
  function Simplify(f: Format): (r: Format)
    ensures r.formatId.Get() == f.formatId.Get() && r.ext.Get() == f.ext.Get()
    ensures r.filesize.Get() == f.filesize.Get() && r.filesizeApprox.Get() == f.filesizeApprox.Get()
    ensures r.resolution.Get() == f.resolution.Get() && r.fps.Get() == f.fps.Get()
    ensures r.vcodec.Get() == f.vcodec.Get() && r.acodec.Get() == f.acodec.Get()
    ensures r.vbr.Get() == f.vbr.Get() && r.abr.Get() == f.abr.Get() && r.tbr.Get() == f.tbr.Get()
    ensures !r.height.Present() && r.otherKeys == {}
  {
    Format(
      Store(f.formatId.Get()), Store(f.ext.Get()), Store(f.filesize.Get()),
      Store(f.filesizeApprox.Get()), Store(f.resolution.Get()), Store(f.fps.Get()),
      Store(f.vcodec.Get()), Store(f.acodec.Get()), Store(f.vbr.Get()), Store(f.abr.Get()),
      Store(f.tbr.Get()), Absent, {})
  }

  /** The simplified record has exactly the eleven keys, whatever keys the input had. */
  lemma SimplifiedKeysExactly(f: Format)
    ensures Keys(Simplify(f)) == SimplifiedKeys
  {
  }

  /** Simplifying a simplified record changes nothing. */
  lemma SimplifyIdempotent(f: Format)
    ensures Simplify(Simplify(f)) == Simplify(f)
  {
  }

  /** Two records that read the same on the eleven keys simplify to the same record. */
  lemma SimplifyDependsOnlyOnElevenKeys(f: Format, g: Format)
    requires f.formatId.Get() == g.formatId.Get() && f.ext.Get() == g.ext.Get()
    requires f.filesize.Get() == g.filesize.Get() && f.filesizeApprox.Get() == g.filesizeApprox.Get()
    requires f.resolution.Get() == g.resolution.Get() && f.fps.Get() == g.fps.Get()
    requires f.vcodec.Get() == g.vcodec.Get() && f.acodec.Get() == g.acodec.Get()
    requires f.vbr.Get() == g.vbr.Get() && f.abr.Get() == g.abr.Get() && f.tbr.Get() == g.tbr.Get()
    ensures Simplify(f) == Simplify(g)
  {
  }

  /** `[simplify_format(f) for f in fs]`. */
  function SimplifyAll(fs: seq<Format>): (r: seq<Format>)
    ensures |r| == |fs|
    ensures forall i :: 0 <= i < |fs| ==> r[i] == Simplify(fs[i])
  {
    if fs == [] then [] else [Simplify(fs[0])] + SimplifyAll(fs[1..])
  }

  /** A simplified record is never the empty dict, so it is always truthy. */
  lemma SimplifiedIsTruthy(f: Format)
    ensures Truthy(Simplify(f))
  {
  }
}

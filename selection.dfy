/**
 * The selection half of serialize_info (app.py:44-60): splitting the format list into video and
 * audio records, and Python's `max(..., key=..., default=None)` over each part.
 */
module Selection {
  import opened Wrappers
  import opened Formats

  datatype Kind = Video | Audio

  /**
   * app.py:47-48: a record is audio exactly when its vcodec reads as the string "none";
   * a missing or None vcodec therefore counts as video.
   */
  function KindOf(f: Format): (k: Kind)
    ensures k == Audio <==> f.vcodec == Val("none")
  {
    if f.vcodec.Get() != Some("none") then Video else Audio
  }

  /** `[f for f in fs if <f is of kind k>]`: the records of one kind, in list order. */
  function OfKind(fs: seq<Format>, k: Kind): (r: seq<Format>)
    ensures |r| <= |fs|
    ensures forall x :: x in r <==> x in fs && KindOf(x) == k
  {
    if fs == [] then []
    else if KindOf(fs[0]) == k then [fs[0]] + OfKind(fs[1..], k)
    else OfKind(fs[1..], k)
  }

  /** `s` is an order-preserving merge of `a` and `b`: each element of `s` is taken from the front of exactly one of them. */
  predicate Interleaves(s: seq<Format>, a: seq<Format>, b: seq<Format>)
    decreases |s|
  {
    if s == [] then a == [] && b == []
    else
      || (a != [] && a[0] == s[0] && Interleaves(s[1..], a[1..], b))
      || (b != [] && b[0] == s[0] && Interleaves(s[1..], a, b[1..]))
  }

  /** Every input record lands in exactly one of the two parts, and each part keeps the input order. */
  lemma {:induction false} PartitionInterleaves(fs: seq<Format>)
    ensures Interleaves(fs, OfKind(fs, Video), OfKind(fs, Audio))
  {
    if fs != [] {
      PartitionInterleaves(fs[1..]);
    }
  }

  /** Counted with multiplicity, the two parts together are exactly the input. */
  lemma {:induction false} PartitionCounts(fs: seq<Format>)
    ensures multiset(OfKind(fs, Video)) + multiset(OfKind(fs, Audio)) == multiset(fs)
  {
    if fs != [] {
      PartitionCounts(fs[1..]);
      var v, a := OfKind(fs[1..], Video), OfKind(fs[1..], Audio);
      assert multiset(fs) == multiset{fs[0]} + multiset(fs[1..]) by {
        assert fs == [fs[0]] + fs[1..];
      }
      if KindOf(fs[0]) == Video {
        assert OfKind(fs, Video) == [fs[0]] + v && OfKind(fs, Audio) == a;
      } else {
        assert OfKind(fs, Video) == v && OfKind(fs, Audio) == [fs[0]] + a;
      }
    }
  }

  /** Simplifying element-wise keeps an interleaving an interleaving. */
  lemma {:induction false} SimplifyKeepsInterleaving(s: seq<Format>, a: seq<Format>, b: seq<Format>)
    requires Interleaves(s, a, b)
    ensures Interleaves(SimplifyAll(s), SimplifyAll(a), SimplifyAll(b))
    decreases |s|
  {
    if s != [] {
      if a != [] && a[0] == s[0] && Interleaves(s[1..], a[1..], b) {
        SimplifyKeepsInterleaving(s[1..], a[1..], b);
        assert SimplifyAll(s)[1..] == SimplifyAll(s[1..]);
        assert SimplifyAll(a)[1..] == SimplifyAll(a[1..]);
      } else {
        SimplifyKeepsInterleaving(s[1..], a, b[1..]);
        assert SimplifyAll(s)[1..] == SimplifyAll(s[1..]);
        assert SimplifyAll(b)[1..] == SimplifyAll(b[1..]);
      }
    }
  }

  /** The two ranking keys of serialize_info. */
  datatype SortKey =
    | HeightThenTbr  // `(f.get("height") or 0, f.get("tbr") or 0)`, app.py:52
    | Abr            // `f.get("abr") or 0`, app.py:58

  /** `f.get(key) or 0`: a missing, None or zero value ranks as 0; the record itself is not changed. */
  function OrZero(x: Field<int>): (n: int)
    ensures x.Get() == None ==> n == 0
    ensures x.Get().Some? ==> n == x.Get().value
  {
    if x.Val? && x.v != 0 then x.v else 0
  }

  /** Python's `key(x) > key(y)`; for HeightThenTbr it is tuple (lexicographic) comparison. */
  predicate Beats(key: SortKey, x: Format, y: Format): (b: bool)
    ensures x == y ==> !b
    ensures b && key == HeightThenTbr ==> OrZero(x.height) >= OrZero(y.height)
    ensures b && key == Abr ==> OrZero(x.abr) > OrZero(y.abr)
  {
    match key
    case HeightThenTbr =>
      OrZero(x.height) > OrZero(y.height)
      || (OrZero(x.height) == OrZero(y.height) && OrZero(x.tbr) > OrZero(y.tbr))
    case Abr => OrZero(x.abr) > OrZero(y.abr)
  }

  /**
   * The reference meaning of `max` with a key: index i holds a maximal record (nothing in `s` beats it)
   * and is the first such, since it beats every record before it.
   */
  predicate IsFirstBest(s: seq<Format>, key: SortKey, i: int) {
    && 0 <= i < |s|
    && (forall j :: 0 <= j < |s| ==> !Beats(key, s[j], s[i]))
    && (forall j :: 0 <= j < i ==> Beats(key, s[i], s[j]))
  }

  /**
   * The scan `max` performs: `best` is the best index among s[..i]; a later record replaces it only
   * when it strictly beats it, which is why the earliest of equally ranked records is kept.
   */
  function ScanBest(s: seq<Format>, key: SortKey, best: nat, i: nat): (r: nat)
    requires best < i <= |s|
    requires forall j :: 0 <= j < i ==> !Beats(key, s[j], s[best])
    requires forall j :: 0 <= j < best ==> Beats(key, s[best], s[j])
    ensures IsFirstBest(s, key, r)
    decreases |s| - i
  {
    if i == |s| then best
    else
      var next := if Beats(key, s[i], s[best]) then i else best;
      ScanStep(s, key, best, i);
      ScanBest(s, key, next, i + 1)
  }

  /** If x beats y and z does not beat y, then x beats z. */
  lemma BeatsThrough(key: SortKey, x: Format, y: Format, z: Format)
    requires Beats(key, x, y) && !Beats(key, z, y)
    ensures Beats(key, x, z) && !Beats(key, z, x)
  {
  }

  /** One step of the scan keeps its invariant. */
  lemma ScanStep(s: seq<Format>, key: SortKey, best: nat, i: nat)
    requires best < i < |s|
    requires forall j :: 0 <= j < i ==> !Beats(key, s[j], s[best])
    requires forall j :: 0 <= j < best ==> Beats(key, s[best], s[j])
    ensures var next := if Beats(key, s[i], s[best]) then i else best;
      && (forall j :: 0 <= j < i + 1 ==> !Beats(key, s[j], s[next]))
      && (forall j :: 0 <= j < next ==> Beats(key, s[next], s[j]))
  {
    if Beats(key, s[i], s[best]) {
      forall j | 0 <= j < i
        ensures Beats(key, s[i], s[j]) && !Beats(key, s[j], s[i])
      {
        BeatsThrough(key, s[i], s[best], s[j]);
      }
    }
  }

  /** The index `max` picks in a non-empty list. */
  function BestIndex(s: seq<Format>, key: SortKey): (i: nat)
    requires s != []
    ensures IsFirstBest(s, key, i)
  {
    ScanBest(s, key, 0, 1)
  }

  /** `max(s, key=..., default=None)`. */
  function BestOf(s: seq<Format>, key: SortKey): (r: Option<Format>)
    ensures r.None? <==> s == []
    ensures r.Some? ==> exists i :: IsFirstBest(s, key, i) && r.value == s[i]
  {
    if s == [] then None else Some(s[BestIndex(s, key)])
  }

  /** At most one index is the first maximal one. */
  lemma FirstBestUnique(s: seq<Format>, key: SortKey, i: int, j: int)
    requires IsFirstBest(s, key, i) && IsFirstBest(s, key, j)
    ensures i == j
  {
    var x, y := s[i], s[j];
    assert i < j ==> Beats(key, y, x);
    assert j < i ==> Beats(key, x, y);
  }

  /** The reference meaning determines what `max` returns: the record at the first maximal index. */
  lemma BestOfIsFirstBest(s: seq<Format>, key: SortKey, i: int)
    requires IsFirstBest(s, key, i)
    ensures BestOf(s, key) == Some(s[i])
  {
    FirstBestUnique(s, key, i, BestIndex(s, key));
  }

  /** Of two equally ranked records, the earlier one is chosen. */
  lemma TieGoesToEarlier(a: Format, b: Format, key: SortKey)
    requires !Beats(key, a, b) && !Beats(key, b, a)
    ensures BestOf([a, b], key) == Some(a)
  {
    BestOfIsFirstBest([a, b], key, 0);
  }

  /** Height dominates the video ranking: tbr only separates records of equal height. */
  lemma HeightDominates(x: Format, y: Format)
    requires OrZero(x.height) > OrZero(y.height)
    ensures Beats(HeightThenTbr, x, y) && !Beats(HeightThenTbr, y, x)
  {
  }
}

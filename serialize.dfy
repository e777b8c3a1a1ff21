/** serialize_info (app.py:44-78): the public view of one video's metadata. */
module Serialize {
  import opened Wrappers
  import opened Formats
  import opened Selection

  /** The metadata record the extractor returns; only the keys serialize_info reads are named. */
  datatype Info = Info(
    title: Field<string>,
    uploader: Field<string>,
    duration: Field<int>,
    viewCount: Field<int>,
    uploadDate: Field<string>,
    thumbnail: Field<string>,
    webpageUrl: Field<string>,
    description: Field<string>,
    formats: Field<seq<Format>>)

  /** The dict serialize_info returns. */
  datatype View = View(
    id: string,
    title: Option<string>,
    uploader: Option<string>,
    duration: Option<int>,
    viewCount: Option<int>,
    uploadDate: Option<string>,
    thumbnail: Option<string>,
    webpageUrl: Option<string>,
    description: Option<string>,
    formats: seq<Format>,
    audioFormats: seq<Format>,
    bestVideo: Option<Format>,
    bestAudio: Option<Format>)

  /** What iterating over a None value raises in Python. */
  const NotIterable := "'NoneType' object is not iterable"

  /**
   * `info.get("formats", [])`: a missing key defaults to the empty list; a key bound to None
   * yields None, which the list comprehensions then fail to iterate (None here).
   */
  function FormatList(info: Info): (r: Option<seq<Format>>)
    ensures r.None? <==> info.formats.Null?
    ensures info.formats.Absent? ==> r == Some([])
    ensures info.formats.Val? ==> r == Some(info.formats.v)
  {
    match info.formats
    case Absent => Some([])
    case Null => None
    case Val(fs) => Some(fs)
  }

  /** `simplify_format(best) if best else None`: an empty dict is falsy as well as None. */
  function Shown(best: Option<Format>): (r: Option<Format>)
    ensures r.Some? <==> best.Some? && Truthy(best.value)
    ensures r.Some? ==> r.value == Simplify(best.value)
  {
    match best
    case Some(b) => if Truthy(b) then Some(Simplify(b)) else None
    case None => None
  }

  function SerializeInfo(info: Info, videoId: string): (r: Result<View, string>)
    ensures r.Failure? <==> info.formats.Null?
    ensures r.Failure? ==> r.error == NotIterable
    ensures r.Success? ==> r.value.id == videoId && r.value.title == info.title.Get()
    ensures r.Success? ==> r.value.uploader == info.uploader.Get() && r.value.duration == info.duration.Get()
    ensures r.Success? ==> r.value.viewCount == info.viewCount.Get() && r.value.uploadDate == info.uploadDate.Get()
    ensures r.Success? ==> r.value.thumbnail == info.thumbnail.Get() && r.value.webpageUrl == info.webpageUrl.Get()
    ensures r.Success? ==> r.value.description == info.description.Get()
  {
    match FormatList(info)
    case None => Failure(NotIterable)
    case Some(fs) =>
      var videoFormats := OfKind(fs, Video);
      var audioFormats := OfKind(fs, Audio);
      var bestVideo := BestOf(videoFormats, HeightThenTbr);
      var bestAudio := BestOf(audioFormats, Abr);
      Success(View(
        videoId,
        info.title.Get(), info.uploader.Get(), info.duration.Get(), info.viewCount.Get(),
        info.uploadDate.Get(), info.thumbnail.Get(), info.webpageUrl.Get(), info.description.Get(),
        SimplifyAll(videoFormats), SimplifyAll(audioFormats),
        Shown(bestVideo), Shown(bestAudio)))
  }

  /** The sort key serialize_info ranks records of each kind by. */
  function KeyFor(k: Kind): SortKey {
    if k == Video then HeightThenTbr else Abr
  }

  /** The list of the view that holds the records of kind k, and its best entry. */
  function Listed(v: View, k: Kind): seq<Format> {
    if k == Video then v.formats else v.audioFormats
  }

  function BestShown(v: View, k: Kind): Option<Format> {
    if k == Video then v.bestVideo else v.bestAudio
  }

  /**
   * `formats` and `audio_formats` are the two parts simplified element-wise: together they are the
   * whole simplified input, each record once, in input order.
   */
  lemma ListsPartitionInput(info: Info, videoId: string, fs: seq<Format>)
    requires FormatList(info) == Some(fs)
    ensures SerializeInfo(info, videoId).Success?
    ensures var v := SerializeInfo(info, videoId).value;
      && Interleaves(SimplifyAll(fs), v.formats, v.audioFormats)
      && |v.formats| + |v.audioFormats| == |fs|
  {
    PartitionInterleaves(fs);
    PartitionCounts(fs);
    assert |multiset(OfKind(fs, Video))| + |multiset(OfKind(fs, Audio))| == |multiset(fs)|;
    SimplifyKeepsInterleaving(fs, OfKind(fs, Video), OfKind(fs, Audio));
  }

  /**
   * What `simplify_format(max(...)) if ... else None` shows for one part: an entry exactly when the
   * first maximal record exists and is not the empty dict, and then the simplified record at that index.
   */
  lemma ShownBest(part: seq<Format>, key: SortKey)
    ensures Shown(BestOf(part, key)).Some? <==> exists i :: IsFirstBest(part, key, i) && Truthy(part[i])
    ensures Shown(BestOf(part, key)).Some? ==>
      exists i :: IsFirstBest(part, key, i) && Shown(BestOf(part, key)).value == SimplifyAll(part)[i]
  {
    if part != [] {
      var b := BestIndex(part, key);
      BestOfIsFirstBest(part, key, b);
      forall i | IsFirstBest(part, key, i) ensures i == b {
        FirstBestUnique(part, key, i, b);
      }
    }
  }

  /**
   * The best entry of kind k: present exactly when the first maximal record of that kind exists and
   * is not the empty dict, and then it is the entry at that index of the listed formats.
   */
  lemma BestIsFirstMaximal(info: Info, videoId: string, fs: seq<Format>, v: View, k: Kind)
    requires FormatList(info) == Some(fs)
    requires SerializeInfo(info, videoId) == Success(v)
    ensures BestShown(v, k).Some? <==>
      exists i :: IsFirstBest(OfKind(fs, k), KeyFor(k), i) && Truthy(OfKind(fs, k)[i])
    ensures BestShown(v, k).Some? ==>
      exists i :: IsFirstBest(OfKind(fs, k), KeyFor(k), i) && BestShown(v, k).value == Listed(v, k)[i]
  {
    ViewParts(info, videoId, fs, v, k);
    ShownBest(OfKind(fs, k), KeyFor(k));
  }

  /** The list and the best entry of kind k, in terms of the part of that kind. */
  lemma ViewParts(info: Info, videoId: string, fs: seq<Format>, v: View, k: Kind)
    requires FormatList(info) == Some(fs)
    requires SerializeInfo(info, videoId) == Success(v)
    ensures Listed(v, k) == SimplifyAll(OfKind(fs, k))
    ensures BestShown(v, k) == Shown(BestOf(OfKind(fs, k), KeyFor(k)))
  {
  }

  /** When no record is the empty dict, a best entry is missing exactly when its list is empty. */
  lemma BestMissingIffNoneOfKind(info: Info, videoId: string, fs: seq<Format>, k: Kind)
    requires FormatList(info) == Some(fs)
    requires forall f :: f in fs ==> Truthy(f)
    ensures SerializeInfo(info, videoId).Success?
    ensures var v := SerializeInfo(info, videoId).value;
      BestShown(v, k).None? <==> Listed(v, k) == []
  {
    var part := OfKind(fs, k);
    if part != [] {
      var b := BestIndex(part, KeyFor(k));
      assert part[b] in fs;
    }
  }

  /** No formats (key missing or an empty list): both lists are empty and there is no best entry. */
  lemma EmptyFormats(info: Info, videoId: string)
    requires info.formats.Absent? || info.formats == Val([])
    ensures SerializeInfo(info, videoId) ==
      Success(View(videoId, info.title.Get(), info.uploader.Get(), info.duration.Get(),
        info.viewCount.Get(), info.uploadDate.Get(), info.thumbnail.Get(), info.webpageUrl.Get(),
        info.description.Get(), [], [], None, None))
  {
  }

  /**
   * The `if best_video` test also rejects an empty dict: a format list holding only `{}` yields a
   * non-empty `formats` list but no `best_video`.
   */
  lemma EmptyRecordHidesBestVideo(info: Info, videoId: string)
    requires info.formats == Val([EmptyRecord])
    ensures SerializeInfo(info, videoId).Success?
    ensures SerializeInfo(info, videoId).value.formats == [Simplify(EmptyRecord)]
    ensures SerializeInfo(info, videoId).value.bestVideo == None
  {
    assert KindOf(EmptyRecord) == Video;
    assert OfKind([EmptyRecord], Video) == [EmptyRecord];
    assert !Truthy(EmptyRecord);
  }
}

/** The per-face normalisation block of process_frames: the analysis result,
    a single record or a list of them, becomes one card-ready summary and one
    overlay per face, with missing keys defaulted and the box clamped. */
module Detection {
  import opened Wrappers
  import Config

  /** The 'emotion' entry of one record: `Scores` when it is a dict (a
      missing entry reads as the empty dict), `NotAMap` for any other value. */
  datatype EmotionField = Scores(scores: map<string, real>) | NotAMap

  /** One face record as the analysis returns it, every key optional. A
      missing 'region' entry reads as the empty map. */
  datatype RawResult = RawResult(region: map<string, int>, dominantEmotion: Option<string>, emotion: EmotionField)

  /** What the analysis call produced for one frame: a single record (a
      dict), a list of records, or an exception. */
  datatype Analysis = Single(result: RawResult) | Multiple(results: seq<RawResult>) | Raised

  /** One face after normalisation: a box with non-negative coordinates, the
      dominant emotion and its probability (a percentage). */
  datatype Face = Face(x: nat, y: nat, w: nat, h: nat, emotion: string, prob: real)

  /** What is drawn on the frame for one face: the box corners and the
      anchor points of the emotion label and of the probability label. */
  datatype Overlay = Overlay(left: int, top: int, right: int, bottom: int,
                             emotionAt: (int, int), probAt: (int, int),
                             emotion: string, prob: real)

  /** The thumbnail of a card: the part of the frame inside the box, or the
      blank 96 x 96 image used when that part is empty. */
  datatype Thumb = Crop(left: nat, top: nat, width: nat, height: nat) | Blank

  /** One entry of faces_for_cards. */
  datatype Card = Card(thumb: Thumb, emotion: string, prob: real)

  /** The records of an analysis as a list; an exception yields none. */
  function AsList(a: Analysis): seq<RawResult>
  {
    match a
    case Single(r) => [r]
    case Multiple(rs) => rs
    case Raised => []
  }

  /** max(0, v): the least value that is non-negative and at least v. */
  function Clamp(v: int): (r: nat)
    ensures v <= r
    ensures r == v || r == 0
  {
    if v < 0 then 0 else v
  }

  /** region.get(key, 0) */
  function RegionValue(region: map<string, int>, key: string): int
  {
    if key in region then region[key] else 0
  }

  /** A box coordinate read from `region`: the raw value when present and
      non-negative, 0 when it is missing or negative. */
  predicate ClampedFrom(v: nat, region: map<string, int>, key: string)
  {
    if key in region && region[key] >= 0 then v == region[key] else v == 0
  }

  /** The face summary of one record. */
  function Normalise(res: RawResult): Face
  {
    var region := res.region;
    var emo := match res.dominantEmotion
      case Some(e) => e
      case None => "unknown";
    var prob := match res.emotion
      case Scores(m) => if emo in m then m[emo] else 0.0
      case NotAMap => 0.0;
    Face(Clamp(RegionValue(region, "x")), Clamp(RegionValue(region, "y")),
         Clamp(RegionValue(region, "w")), Clamp(RegionValue(region, "h")), emo, prob)
  }

  /** Each box coordinate is the raw region value when it is present and
      non-negative, otherwise 0; the emotion is the dominant one or
      "unknown"; the probability is that emotion's score, or 0.0 when it has
      none or the scores are not a dict. */
  lemma NormaliseDefaults(res: RawResult)
    ensures var f := Normalise(res);
            && ClampedFrom(f.x, res.region, "x") && ClampedFrom(f.y, res.region, "y")
            && ClampedFrom(f.w, res.region, "w") && ClampedFrom(f.h, res.region, "h")
            && f.emotion == (if res.dominantEmotion.Some? then res.dominantEmotion.value else "unknown")
            && (res.emotion.Scores? && f.emotion in res.emotion.scores ==> f.prob == res.emotion.scores[f.emotion])
            && (res.emotion.NotAMap? || f.emotion !in res.emotion.scores ==> f.prob == 0.0)
  {
  }

  /** The rectangle and the two labels drawn for a face. */
  function OverlayOf(f: Face): (o: Overlay)
    ensures o.left == f.x && o.top == f.y
    ensures 0 <= o.left <= o.right && 0 <= o.top <= o.bottom
    ensures o.right - o.left == f.w && o.bottom - o.top == f.h
    ensures o.emotionAt.0 == o.left && o.emotionAt.1 >= 12 && o.emotionAt.1 >= o.top - 8
    ensures o.emotionAt.1 == 12 || o.emotionAt.1 == o.top - 8
    ensures o.probAt.0 == o.left && o.probAt.1 == o.bottom + 30
    ensures o.emotion == f.emotion && o.prob == f.prob
  {
    var labelY := if 12 < f.y - 8 then f.y - 8 else 12;
    Overlay(f.x, f.y, f.x + f.w, f.y + f.h, (f.x, labelY), (f.x, f.y + f.h + 30), f.emotion, f.prob)
  }

  /** The number of indices a Python slice [lo:lo + len] keeps of a
      dimension of length n, for lo >= 0. */
  function SliceLength(lo: nat, len: nat, n: nat): (r: nat)
    ensures r <= len
    ensures r == 0 <==> lo >= n || len == 0
    ensures r > 0 ==> lo + r <= n && (r == len || lo + r == n)
  {
    if lo >= n then 0 else if lo + len <= n then len else n - lo
  }

  /** The crop frame[y:y + h, x:x + w] of the resized frame, or the blank
      image when the crop has no pixels. */
  function Thumbnail(f: Face): (t: Thumb)
    ensures t.Blank? <==> f.w == 0 || f.h == 0 || f.x >= Config.NewWidth || f.y >= Config.NewHeight
    ensures t.Crop? ==> t.left == f.x && t.top == f.y
    ensures t.Crop? ==> 0 < t.width <= f.w && t.left + t.width <= Config.NewWidth
    ensures t.Crop? ==> 0 < t.height <= f.h && t.top + t.height <= Config.NewHeight
    ensures t.Crop? ==> (t.width == f.w || t.left + t.width == Config.NewWidth)
    ensures t.Crop? ==> (t.height == f.h || t.top + t.height == Config.NewHeight)
  {
    var rows := SliceLength(f.y, f.h, Config.NewHeight);
    var cols := SliceLength(f.x, f.w, Config.NewWidth);
    if rows == 0 || cols == 0 then Blank else Crop(f.x, f.y, cols, rows)
  }

  function CardOf(f: Face): Card
  {
    Card(Thumbnail(f), f.emotion, f.prob)
  }

  /** The cards of a list of records. */
  function CardsOf(rs: seq<RawResult>): seq<Card>
  {
    if rs == [] then [] else CardsOf(rs[..|rs| - 1]) + [CardOf(Normalise(rs[|rs| - 1]))]
  }

  /** One card per record, in order. */
  lemma {:induction false} CardsOfEach(rs: seq<RawResult>)
    ensures |CardsOf(rs)| == |rs|
    ensures forall i :: 0 <= i < |rs| ==> CardsOf(rs)[i] == CardOf(Normalise(rs[i]))
  {
    if rs != [] {
      CardsOfEach(rs[..|rs| - 1]);
    }
  }

  /** The overlays of a list of records. */
  function OverlaysOf(rs: seq<RawResult>): seq<Overlay>
  {
    if rs == [] then [] else OverlaysOf(rs[..|rs| - 1]) + [OverlayOf(Normalise(rs[|rs| - 1]))]
  }

  /** One overlay per record, in order. */
  lemma {:induction false} OverlaysOfEach(rs: seq<RawResult>)
    ensures |OverlaysOf(rs)| == |rs|
    ensures forall i :: 0 <= i < |rs| ==> OverlaysOf(rs)[i] == OverlayOf(Normalise(rs[i]))
  {
    if rs != [] {
      OverlaysOfEach(rs[..|rs| - 1]);
    }
  }

  /** The emotion that may be spoken: that of the first card, if any. */
  function Primary(cards: seq<Card>): (p: Option<string>)
    ensures p.None? <==> cards == []
    ensures p.Some? ==> p.value == cards[0].emotion
  {
    if cards == [] then None else Some(cards[0].emotion)
  }

  /** The loop of process_frames over the records of one analysis: it draws
      an overlay and collects a card for each record. */
  method CollectResults(results: seq<RawResult>) returns (overlays: seq<Overlay>, cards: seq<Card>)
    ensures overlays == OverlaysOf(results)
    ensures cards == CardsOf(results)
  {
    overlays, cards := [], [];
    for i := 0 to |results|
      invariant overlays == OverlaysOf(results[..i])
      invariant cards == CardsOf(results[..i])
    {
      assert results[..i + 1][..i] == results[..i];
      var f := Normalise(results[i]);
      overlays := overlays + [OverlayOf(f)];
      cards := cards + [CardOf(f)];
    }
    assert results[..|results|] == results;
  }

  /** The face block of process_frames: no faces when the analysis raised,
      otherwise the overlays and cards of its records, and the first face's
      emotion as the one to speak. */
  method CollectFaces(analysis: Analysis) returns (overlays: seq<Overlay>, cards: seq<Card>, primary: Option<string>)
    ensures overlays == OverlaysOf(AsList(analysis))
    ensures cards == CardsOf(AsList(analysis))
    ensures primary == Primary(cards)
  {
    if analysis.Raised? {
      return [], [], None;
    }
    var results := if analysis.Single? then [analysis.result] else analysis.results;
    overlays, cards := CollectResults(results);
    primary := if |cards| > 0 then Some(cards[0].emotion) else None;
  }

  /** A dict gives exactly the one card of its record; an exception gives no
      cards and nothing to speak. */
  lemma AnalysisCards(analysis: Analysis)
    ensures analysis.Single? ==>
              CardsOf(AsList(analysis)) == [CardOf(Normalise(analysis.result))] &&
              Primary(CardsOf(AsList(analysis))) == Some(Normalise(analysis.result).emotion)
    ensures analysis.Raised? ==> CardsOf(AsList(analysis)) == [] && Primary(CardsOf(AsList(analysis))).None?
  {
  }

  /** A face at region (10, 10, 50, 50) labelled "happy" at 92.5 gets the box
      (10, 10)-(60, 60), the emotion label at (10, 12), the probability
      label at (10, 90), and a card "happy" at 92.5. */
  lemma HappyFace()
    ensures var res := RawResult(map["x" := 10, "y" := 10, "w" := 50, "h" := 50],
                                 Some("happy"), Scores(map["happy" := 92.5, "sad" := 1.0]));
            var f := Normalise(res);
            OverlayOf(f) == Overlay(10, 10, 60, 60, (10, 12), (10, 90), "happy", 92.5) &&
            CardOf(f) == Card(Crop(10, 10, 50, 50), "happy", 92.5)
  {
  }

  /** Negative and missing coordinates become 0 and a record without labels
      reads as "unknown" at probability 0. */
  lemma BareRecord()
    ensures Normalise(RawResult(map["x" := -5, "w" := 30], None, NotAMap)) == Face(0, 0, 30, 0, "unknown", 0.0)
  {
  }
}

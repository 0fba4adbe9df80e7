/**
 * `extract_mcc_info_from_text`: the keyword reader that fills a complete
 * door summary from the text of an uploaded document. Every field gets a
 * value; when the document says nothing the defaults are a Freedom Plus
 * door, 48 inches high, with a starter bucket and a rotary handle.
 */
module DocumentText {
  import opened Wrappers
  import opened Text
  import opened Door
  import opened Patterns
  import opened Rules

  /** The five cutout flags of a document summary. */
  datatype DocCutouts = DocCutouts(
    rotoTract: bool,
    reset: bool,
    fan: bool,
    pemstud: bool,
    devicePanel: bool)

  /** The summary `extract_mcc_info_from_text` returns. */
  datatype DocInfo = DocInfo(
    typ: MccType,
    arcRated: bool,
    thickness: nat,
    height: nat,
    bucket: BucketType,
    handle: HandleType,
    cutouts: DocCutouts)

  /** `door height[:\s]*(\d+)\s*(?:inches?|in|")` */
  const DocDoorHeight: Pattern := LabelledNumber([Word("door height")], ColonsAndSpaces, DocInchUnits)
  /** `height[:\s]*(\d+)\s*(?:inches?|in|")` */
  const DocHeight: Pattern := LabelledNumber([Word("height")], ColonsAndSpaces, DocInchUnits)
  /** `(\d+)\s*(?:inches?|in|")\s*height` */
  const DocNumberHeight: Pattern := NumberThen(DocInchUnits, ["height"])
  /** `(\d+)\s*(?:inches?|in|")\s*tall` */
  const DocNumberTall: Pattern := NumberThen(DocInchUnits, ["tall"])

  /** The door height rules, tried in this order. */
  const DocHeightPatterns: seq<Pattern> := [DocDoorHeight, DocHeight, DocNumberHeight, DocNumberTall]

  /** The fields that the document reader derives from one another: the arc
      rating and the gauge follow the type, and the RotoTract and reset
      cutouts follow the type and the bucket. */
  predicate Consistent(info: DocInfo) {
    && (info.arcRated <==> info.typ == FreedomPlusFlashGard)
    && info.thickness == Gauge(info.arcRated)
    && (info.cutouts.rotoTract <==> info.typ == FreedomPlusFlashGard)
    && (info.cutouts.reset <==> info.bucket == DriveBucket)
  }

  /** The door height the height rules read from lower-cased text `t`:
      the number captured by the first rule that matches, else 48. */
  function HeightFromDoc(t: string): (h: nat)
    ensures !Contains(t, "height") && !Contains(t, "tall") ==> h == DefaultHeight
  {
    DocRulesNeedWord(t);
    match FirstHit(DocHeightPatterns, t)
    case None => DefaultHeight
    case Some(h) => DecimalValue(HitText(t, h))
  }

  /** Reads the door summary from the text of a document. */
  method ExtractMccInfoFromText(text: string) returns (info: DocInfo)
    ensures Consistent(info)
    ensures info.typ == FreedomPlusFlashGard <==> Contains(Lower(text), "flashgard")
    ensures info.height == HeightFromDoc(Lower(text))
    ensures info.bucket == DriveBucket <==> MentionsDrive(Lower(text))
    ensures info.handle == UpDownHandle <==> MentionsUpDown(Lower(text))
    ensures info.cutouts.fan <==> MentionsFan(Lower(text))
    ensures info.cutouts.pemstud <==> MentionsPemstud(Lower(text))
    ensures info.cutouts.devicePanel <==> MentionsDevicePanel(Lower(text))
  {
    var t := Lower(text);
    var typ, arcRated, thickness := DetectType(t);
    var height := ReadDocHeight(t);
    var bucket := DetectBucket(t);
    var handle := DetectHandle(t);
    var cutouts := DetectCutouts(t, typ, bucket);
    info := DocInfo(typ, arcRated, thickness, height, bucket, handle, cutouts);
  }

  predicate MentionsDrive(t: string) {
    Contains(t, "drive bucket") || Contains(t, "vfd") || Contains(t, "variable frequency")
  }

  predicate MentionsUpDown(t: string) {
    Contains(t, "up-down handle") || Contains(t, "up down handle")
  }

  predicate MentionsFan(t: string) {
    Contains(t, "fan cutout") || Contains(t, "cooling fan")
  }

  predicate MentionsPemstud(t: string) {
    Contains(t, "pemstud") || Contains(t, "pem stud")
  }

  predicate MentionsDevicePanel(t: string) {
    Contains(t, "device panel") || Contains(t, "control panel")
      || Contains(t, "pushbutton") || Contains(t, "pilot device")
  }

  /** The type test: FlashGard, arc rated and 12 gauge exactly when the text
      mentions "flashgard"; otherwise Freedom Plus, not arc rated, 14 gauge,
      whether or not it mentions "freedom plus". */
  method DetectType(t: string) returns (typ: MccType, arcRated: bool, thickness: nat)
    ensures typ == FreedomPlusFlashGard <==> Contains(t, "flashgard")
    ensures arcRated <==> typ == FreedomPlusFlashGard
    ensures thickness == Gauge(arcRated)
  {
    if Contains(t, "freedom plus flashgard") || Contains(t, "flashgard") {
      if Contains(t, "freedom plus flashgard") {
        ContainsWithin(t, "freedom plus flashgard", "flashgard", 13);
      }
      typ, arcRated, thickness := FreedomPlusFlashGard, true, 12;
    } else if Contains(t, "freedom plus") {
      typ, arcRated, thickness := FreedomPlus, false, 14;
    } else {
      typ, arcRated, thickness := FreedomPlus, false, 14;
    }
  }

  /** The height rules tried in order; the first that matches gives the height. */
  method ReadDocHeight(t: string) returns (height: nat)
    ensures height == HeightFromDoc(t)
  {
    var hit := FindFirst(DocHeightPatterns, t);
    if hit.Some? {
      height := DecimalValue(HitText(t, hit.value));
    } else {
      height := DefaultHeight;
    }
  }

  method DetectBucket(t: string) returns (bucket: BucketType)
    ensures bucket == DriveBucket <==> MentionsDrive(t)
  {
    if Contains(t, "drive bucket") || Contains(t, "vfd") || Contains(t, "variable frequency") {
      bucket := DriveBucket;
    } else {
      bucket := StarterBucket;
    }
  }

  method DetectHandle(t: string) returns (handle: HandleType)
    ensures handle == UpDownHandle <==> MentionsUpDown(t)
  {
    if Contains(t, "up-down handle") || Contains(t, "up down handle") {
      handle := UpDownHandle;
    } else {
      handle := RotaryHandle;
    }
  }

  /** The cutouts: RotoTract follows the FlashGard type, reset follows the
      drive bucket, the other three follow keywords. */
  method DetectCutouts(t: string, typ: MccType, bucket: BucketType) returns (c: DocCutouts)
    ensures c.rotoTract <==> typ == FreedomPlusFlashGard
    ensures c.reset <==> bucket == DriveBucket
    ensures c.fan <==> MentionsFan(t)
    ensures c.pemstud <==> MentionsPemstud(t)
    ensures c.devicePanel <==> MentionsDevicePanel(t)
  {
    var rotoTract := typ == FreedomPlusFlashGard;
    var reset := bucket == DriveBucket;
    var fan := Contains(t, "fan cutout") || Contains(t, "cooling fan");
    var pemstud := Contains(t, "pemstud") || Contains(t, "pem stud");
    var devicePanel := Contains(t, "device panel") || Contains(t, "control panel")
      || Contains(t, "pushbutton") || Contains(t, "pilot device");
    c := DocCutouts(rotoTract, reset, fan, pemstud, devicePanel);
  }

  // ---------------------------------------------------------------------
  // What the height rules read.

  /** Every height rule needs the word "height" or "tall" somewhere. */
  lemma DocRuleNeedsWord(t: string, r: nat, j: nat)
    requires r < |DocHeightPatterns| && j <= |t|
    ensures MatchAt(DocHeightPatterns[r], t, j).Some? ==> Contains(t, "height") || Contains(t, "tall")
  {
    if r == 0 {
      DocDoorHeightNeedsWord(t, j);
    } else if r == 1 {
      DocLabelNeedsWord(t, j, "height");
    } else if r == 2 {
      DocNumberNeedsWord(t, j, "height");
    } else {
      DocNumberNeedsWord(t, j, "tall");
    }
  }

  /** The "door height" rule needs the word "height". */
  lemma DocDoorHeightNeedsWord(t: string, j: nat)
    requires j <= |t|
    ensures MatchAt(DocDoorHeight, t, j).Some? ==> Contains(t, "height")
  {
    DocLabelNeedsWord(t, j, "door height");
    if Contains(t, "door height") {
      ContainsWithin(t, "door height", "height", 5);
    }
  }

  /** A labelled height rule needs its label. */
  lemma DocLabelNeedsWord(t: string, j: nat, w: string)
    requires j <= |t|
    ensures LabelledNumberAt(t, j, [Word(w)], ColonsAndSpaces, DocInchUnits).Some? ==> Contains(t, w)
  {
    if LabelledNumberAt(t, j, [Word(w)], ColonsAndSpaces, DocInchUnits).Some? {
      LabelledNumberNeedsLabel(t, j, [Word(w)], ColonsAndSpaces, DocInchUnits);
      assert StartsAt(t, j, w);
    }
  }

  /** A number-first height rule needs the word after the unit. */
  lemma DocNumberNeedsWord(t: string, j: nat, w: string)
    requires j <= |t|
    ensures Number(t, j, DocInchUnits, [w]).Some? ==> Contains(t, w)
  {
    if Number(t, j, DocInchUnits, [w]).Some? {
      NumberNeedsAfter(t, j, DocInchUnits, [w]);
    }
  }

  /** No height rule matches a document that never says "height" or "tall". */
  lemma DocRulesNeedWord(t: string)
    ensures !Contains(t, "height") && !Contains(t, "tall") ==> FirstHit(DocHeightPatterns, t) == None
  {
    if !Contains(t, "height") && !Contains(t, "tall") {
      forall r | 0 <= r < |DocHeightPatterns|
        ensures Search(DocHeightPatterns[r], t).None?
      {
        forall j | 0 <= j <= |t|
          ensures MatchAt(DocHeightPatterns[r], t, j).None?
        {
          DocRuleNeedsWord(t, r, j);
        }
      }
      FirstHitNone(DocHeightPatterns, t);
    }
  }

  /** A document that opens with "door height: N in" is read as height N,
      whatever follows. */
  lemma LabelledDocHeight(t: string, n: nat)
    requires StartsAt(t, 0, "door height: " + DecimalString(n) + " in")
    ensures HeightFromDoc(t) == n
  {
    var d := DecimalString(n);
    OpeningSearch(t, d);
    FirstRuleHeight(t, Match(0, Span(13, 13 + |d|)));
    DecimalRoundTrip(n);
  }

  /** In a text that opens with "door height: <digits> in", the first height
      rule matches at the start and captures those digits. */
  lemma OpeningSearch(t: string, d: string)
    requires |d| > 0 && AllDigits(d)
    requires StartsAt(t, 0, "door height: " + d + " in")
    ensures Search(DocDoorHeight, t) == Some(Match(0, Span(13, 13 + |d|)))
    ensures t[13..13 + |d|] == d
  {
    DoorHeightOpening(t, d);
    SearchAtStart(DocDoorHeight, t);
  }

  /** When the first height rule matches, its digits are the height. */
  lemma FirstRuleHeight(t: string, m: Match)
    requires Search(DocDoorHeight, t) == Some(m)
    ensures SpanIn(m.group, t) && AllDigits(Captured(t, m.group))
    ensures HeightFromDoc(t) == DecimalValue(Captured(t, m.group))
  {
    FirstHitAt(DocHeightPatterns, t, 0);
  }

  /** The first height rule matches at the very start of such a text, with
      the digits as its group. */
  lemma DoorHeightOpening(t: string, d: string)
    requires |d| > 0 && AllDigits(d)
    requires StartsAt(t, 0, "door height: " + d + " in")
    ensures MatchAt(DocDoorHeight, t, 0) == Some(Span(13, 13 + |d|))
    ensures t[13..13 + |d|] == d
  {
    var e := 13 + |d|;
    OpeningRuns(t, d);
    UnitThenAt(t, e + 1, DocInchUnits, Nothing, 2, 0);
    LabelledNumberFirst(t, 0, [Word("door height")], ColonsAndSpaces, DocInchUnits, 13);
  }

  /** Where the runs of "door height: <digits> in" begin and end. */
  lemma OpeningRuns(t: string, d: string)
    requires |d| > 0 && AllDigits(d)
    requires StartsAt(t, 0, "door height: " + d + " in")
    ensures var e := 13 + |d|;
      && StartsAt(t, 0, "door height")
      && RunEnd(t, 11, ColonOrSpaceClass) == 13
      && IsDigit(t[13])
      && RunEnd(t, 13, DigitClass) == e
      && RunEnd(t, e, SpaceClass) == e + 1
      && StartsAt(t, e + 1, DocInchUnits[2])
      && t[13..e] == d
  {
    var e := 13 + |d|;
    OpeningChars(t, d);
    assert t[..11] == "door height";
    RunEndAt(t, 11, 13, ColonOrSpaceClass);
    RunEndAt(t, 13, e, DigitClass);
    RunEndAt(t, e, e + 1, SpaceClass);
    assert t[e + 1..e + 3] == "in";
  }

  /** The characters of such an opening, one by one. */
  lemma OpeningChars(t: string, d: string)
    requires StartsAt(t, 0, "door height: " + d + " in")
    ensures forall x :: 0 <= x < 13 ==> t[x] == "door height: "[x]
    ensures forall x :: 0 <= x < |d| ==> t[13 + x] == d[x]
    ensures t[13..13 + |d|] == d
    ensures forall x :: 0 <= x < 3 ==> t[13 + |d| + x] == " in"[x]
  {
    var p := "door height: " + d + " in";
    assert forall x :: 0 <= x < |p| ==> t[x] == p[x];
  }
}

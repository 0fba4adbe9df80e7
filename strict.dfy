/**
 * The text body of `extract_info_from_txt`: the strict reader of a
 * parameter file. Type, height, bucket and handle each come from an ordered
 * list of patterns, the first rule that matches anywhere deciding the field;
 * a field that no rule matches stays unset (`None`). Cutouts are keyword
 * tests, and the door thickness follows the arc rating when the type is
 * known and is read from the text only when it is not.
 */
module StrictText {
  import opened Wrappers
  import opened Text
  import opened Door
  import opened Patterns
  import opened Rules

  /** The four cutout flags of a parameter file (there is no reset cutout). */
  datatype TxtCutouts = TxtCutouts(
    rotoTract: bool,
    fan: bool,
    pemstud: bool,
    devicePanel: bool)

  /** The record `extract_info_from_txt` returns; `None` is a field the file
      did not settle. */
  datatype TxtInfo = TxtInfo(
    typ: Option<MccType>,
    arcRated: Option<bool>,
    height: Option<nat>,
    bucket: Option<BucketType>,
    handle: Option<HandleType>,
    cutouts: TxtCutouts,
    thickness: Option<nat>)

  // ---------------------------------------------------------------------
  // The rule lists.

  /** `(?:type|door type|mcc type)` */
  const TypeLabels: seq<Label> := [Word("type"), Word("door type"), Word("mcc type")]

  const TypePatterns: seq<Pattern> := [
    LabelledWords(TypeLabels, FreedomPlusFlashGardWords),
    LabelledWords(TypeLabels, FreedomPlusWords),
    BareWords(FreedomPlusFlashGardWords),
    WordsNotBefore(FreedomPlusWords, "flashgard")]

  /** `(?:door\s+height|height)` */
  const HeightLabels: seq<Label> := [TwoWords("door", "height"), Word("height")]

  const HeightPatterns: seq<Pattern> := [
    LabelledNumber(HeightLabels, OptionalColon, InchUnits),
    LabelledNumber(HeightLabels, OptionalColon, Nothing),
    NumberThen(InchUnits, Nothing)]

  /** `(?:bucket\s+type|bucket)` */
  const BucketLabels: seq<Label> := [TwoWords("bucket", "type"), Word("bucket")]

  const BucketPatterns: seq<Pattern> := [
    LabelledWords(BucketLabels, DriveBucketWords),
    LabelledWords(BucketLabels, StarterBucketWords),
    BareWords(DriveBucketWords),
    BareWords(StarterBucketWords)]

  /** `(?:handle\s+type|handle)` */
  const HandleLabels: seq<Label> := [TwoWords("handle", "type"), Word("handle")]

  const HandlePatterns: seq<Pattern> := [
    LabelledWords(HandleLabels, UpDownHandleWords),
    LabelledWords(HandleLabels, RotaryHandleWords),
    BareWords(UpDownHandleWords),
    BareWords(RotaryHandleWords)]

  const ThicknessPatterns: seq<Pattern> := [
    LabelledNumber([Word("door thickness"), Word("thickness")], OptionalColon, GaugeUnits),
    NumberThen(GaugeUnits, ["door", "thickness"])]

  const RotoTractKeywords: seq<string> := [
    "rototract cutout", "roto tract cutout", "rototract: yes",
    "rototract:yes", "rototract: true", "with rototract"]

  const FanKeywords: seq<string> := [
    "fan cutout", "fan: yes", "fan:yes", "fan: true", "with fan", "needs fan"]

  const PemstudKeywords: seq<string> := [
    "pemstud", "pem stud", "pemstud: yes", "pemstud:yes", "pemstud: true", "with pemstud"]

  const DevicePanelKeywords: seq<string> := [
    "device panel cutout", "device panel: yes", "device panel:yes",
    "device panel: true", "with device panel", "needs device panel"]

  // ---------------------------------------------------------------------
  // What each field is, as a function of the lower-cased text `t`.

  /** The type named by the winning type rule's group: FlashGard when that
      group says "flashgard", Freedom Plus otherwise; unset without a match. */
  function TypeFromTxt(t: string): Option<MccType> {
    match FirstHit(TypePatterns, t)
    case None => None
    case Some(h) =>
      Some(if Contains(HitText(t, h), "flashgard") then FreedomPlusFlashGard else FreedomPlus)
  }

  /** The arc rating that goes with a type: known exactly when the type is,
      and true exactly for FlashGard. */
  function ArcRatedOf(typ: Option<MccType>): (arc: Option<bool>)
    ensures arc.None? <==> typ.None?
    ensures arc == Some(true) <==> typ == Some(FreedomPlusFlashGard)
    ensures arc == Some(false) <==> typ == Some(FreedomPlus)
  {
    match typ
    case None => None
    case Some(FreedomPlusFlashGard) => Some(true)
    case Some(FreedomPlus) => Some(false)
  }

  /** Every rule of the list captures a number. */
  predicate AllNumeric(ps: seq<Pattern>) {
    forall j :: 0 <= j < |ps| ==> ps[j].Numeric()
  }

  /** `int(match.group(1))` of the winning rule of a list of numeric rules;
      unset when no rule matches. */
  function NumberFromTxt(ps: seq<Pattern>, t: string): (r: Option<nat>)
    requires AllNumeric(ps)
    ensures r.None? <==> forall j :: 0 <= j < |ps| ==> Search(ps[j], t).None?
  {
    match FirstHit(ps, t)
    case None => None
    case Some(h) => Some(DecimalValue(HitText(t, h)))
  }

  function BucketFromTxt(t: string): Option<BucketType> {
    match FirstHit(BucketPatterns, t)
    case None => None
    case Some(h) =>
      Some(if Contains(HitText(t, h), "drive") then DriveBucket else StarterBucket)
  }

  /** The handle the winning handle rule's group names: up-down when it says
      both "up" and "down", rotary when it says "rotary", and otherwise
      nothing, even though a rule matched. */
  function HandleFromTxt(t: string): Option<HandleType> {
    match FirstHit(HandlePatterns, t)
    case None => None
    case Some(h) =>
      var c := HitText(t, h);
      if Contains(c, "up") && Contains(c, "down") then Some(UpDownHandle)
      else if Contains(c, "rotary") then Some(RotaryHandle)
      else None
  }

  /** Each cutout is set when any of its keywords occurs. Pemstud comes down
      to "pemstud" or "pem stud", and the device panel cutout is only ever
      set by a text that says "device panel". */
  function CutoutsFromTxt(t: string): (c: TxtCutouts)
    ensures c.pemstud <==> Contains(t, "pemstud") || Contains(t, "pem stud")
    ensures c.devicePanel ==> Contains(t, "device panel")
  {
    PemstudKeywordsReduce(t);
    DevicePanelKeywordsNamePanel(t);
    TxtCutouts(
      ContainsAny(t, RotoTractKeywords),
      ContainsAny(t, FanKeywords),
      ContainsAny(t, PemstudKeywords),
      ContainsAny(t, DevicePanelKeywords))
  }

  /** The gauge: implied by the arc rating when that is known, otherwise the
      number the thickness rules read. */
  function ThicknessFromTxt(arc: Option<bool>, t: string): Option<nat> {
    match arc
    case Some(a) => Some(Gauge(a))
    case None => NumberFromTxt(ThicknessPatterns, t)
  }

  /** The whole record read from lower-cased text `t`. */
  function InfoFromTxt(t: string): TxtInfo {
    var typ := TypeFromTxt(t);
    var arc := ArcRatedOf(typ);
    TxtInfo(typ, arc, NumberFromTxt(HeightPatterns, t), BucketFromTxt(t),
      HandleFromTxt(t), CutoutsFromTxt(t), ThicknessFromTxt(arc, t))
  }

  /** The arc rating follows the type, and a known arc rating fixes the gauge. */
  predicate TxtConsistent(info: TxtInfo) {
    && info.arcRated == ArcRatedOf(info.typ)
    && (info.arcRated.Some? ==> info.thickness == Some(Gauge(info.arcRated.value)))
  }

  // ---------------------------------------------------------------------
  // The reader.

  /** Reads the parameter record from the text of a file. */
  method ExtractInfoFromTxt(text: string) returns (info: TxtInfo)
    ensures info == InfoFromTxt(Lower(text))
    ensures TxtConsistent(info)
  {
    var t := Lower(text);
    var typ := ReadTxtType(t);
    var arcRated := ArcRatedOf(typ);
    var height := ReadTxtHeight(t);
    var bucket := ReadTxtBucket(t);
    var handle := ReadTxtHandle(t);
    var cutouts := TxtCutouts(
      ContainsAny(t, RotoTractKeywords),
      ContainsAny(t, FanKeywords),
      ContainsAny(t, PemstudKeywords),
      ContainsAny(t, DevicePanelKeywords));
    var thickness := ReadTxtThickness(arcRated, t);
    info := TxtInfo(typ, arcRated, height, bucket, handle, cutouts, thickness);
  }

  /** The type rules tried in order; the group of the first match names the type. */
  method ReadTxtType(t: string) returns (typ: Option<MccType>)
    ensures typ == TypeFromTxt(t)
  {
    var hit := FindFirst(TypePatterns, t);
    typ := None;
    if hit.Some? {
      if Contains(HitText(t, hit.value), "flashgard") {
        typ := Some(FreedomPlusFlashGard);
      } else {
        typ := Some(FreedomPlus);
      }
    }
  }

  /** Numeric rules tried in order; the first match's digits are the value. */
  method ReadTxtNumber(ps: seq<Pattern>, t: string) returns (n: Option<nat>)
    requires AllNumeric(ps)
    ensures n == NumberFromTxt(ps, t)
  {
    var hit := FindFirst(ps, t);
    n := None;
    if hit.Some? {
      n := Some(DecimalValue(HitText(t, hit.value)));
    }
  }

  method ReadTxtHeight(t: string) returns (height: Option<nat>)
    ensures height == NumberFromTxt(HeightPatterns, t)
  {
    assert AllNumeric(HeightPatterns);
    height := ReadTxtNumber(HeightPatterns, t);
  }

  /** The gauge from the arc rating when known, else from the thickness rules. */
  method ReadTxtThickness(arcRated: Option<bool>, t: string) returns (thickness: Option<nat>)
    ensures thickness == ThicknessFromTxt(arcRated, t)
  {
    if arcRated.Some? {
      thickness := Some(if arcRated.value then 12 else 14);
    } else {
      assert AllNumeric(ThicknessPatterns);
      thickness := ReadTxtNumber(ThicknessPatterns, t);
    }
  }

  method ReadTxtBucket(t: string) returns (bucket: Option<BucketType>)
    ensures bucket == BucketFromTxt(t)
  {
    var hit := FindFirst(BucketPatterns, t);
    bucket := None;
    if hit.Some? {
      if Contains(HitText(t, hit.value), "drive") {
        bucket := Some(DriveBucket);
      } else {
        bucket := Some(StarterBucket);
      }
    }
  }

  method ReadTxtHandle(t: string) returns (handle: Option<HandleType>)
    ensures handle == HandleFromTxt(t)
  {
    var hit := FindFirst(HandlePatterns, t);
    handle := None;
    if hit.Some? {
      var c := HitText(t, hit.value);
      if Contains(c, "up") && Contains(c, "down") {
        handle := Some(UpDownHandle);
      } else if Contains(c, "rotary") {
        handle := Some(RotaryHandle);
      }
    }
  }

  // ---------------------------------------------------------------------
  // What the reader promises.

  /** The record read from any text keeps the arc rating and the gauge in
      step with the type. */
  lemma InfoFromTxtConsistent(t: string)
    ensures TxtConsistent(InfoFromTxt(t))
  {
  }

  /** The type is unset exactly when no type rule matches anywhere, and it
      is FlashGard exactly when the winning rule is one of the two that
      capture the FlashGard words (rules 0 and 2). */
  lemma TxtTypeByRule(t: string)
    ensures TypeFromTxt(t).None? <==> forall j :: 0 <= j < |TypePatterns| ==> Search(TypePatterns[j], t).None?
    ensures TypeFromTxt(t) == Some(FreedomPlusFlashGard) <==>
      FirstHit(TypePatterns, t).Some? && FirstHit(TypePatterns, t).value.index in {0, 2}
  {
    var r := FirstHit(TypePatterns, t);
    if r.Some? {
      var h := r.value;
      if h.index in {0, 2} {
        FlashGardWordsNamed(t, h.m.group.start);
      } else {
        FreedomPlusLacksFlashGard(t, h.m.group.start);
      }
    }
  }

  /** A text that says "freedom plus" anywhere settles the type. */
  lemma TxtTypeFound(t: string)
    requires Contains(t, "freedom plus")
    ensures TypeFromTxt(t).Some?
  {
    var x: nat :| x <= |t| && StartsAt(t, x, "freedom plus");
    FreedomPlusNamedMatches(t, x);
    if MatchAt(TypePatterns[2], t, x).Some? {
      FirstHitSome(TypePatterns, t, 2);
    } else {
      FirstHitSome(TypePatterns, t, 3);
    }
  }

  /** A text that never says "freedom" leaves the type, and so the arc
      rating, unset. */
  lemma TxtTypeAbsent(t: string)
    requires !Contains(t, "freedom")
    ensures TypeFromTxt(t) == None
  {
    forall j | 0 <= j < |TypePatterns|
      ensures Search(TypePatterns[j], t).None?
    {
      forall i | 0 <= i <= |t|
        ensures MatchAt(TypePatterns[j], t, i).None?
      {
        TypeRuleNeedsFreedom(t, j, i);
      }
    }
    FirstHitNone(TypePatterns, t);
  }

  /** Every type rule matches only where "freedom" begins its group. */
  lemma TypeRuleNeedsFreedom(t: string, j: nat, i: nat)
    requires j < |TypePatterns| && i <= |t|
    ensures MatchAt(TypePatterns[j], t, i).Some? ==> Contains(t, "freedom")
  {
    if MatchAt(TypePatterns[j], t, i).Some? {
      var k := MatchAt(TypePatterns[j], t, i).value.start;
      FreedomGroupsStartWithFreedom(t, k, TypePatterns[j].Words());
    }
  }

  /** A list of numeric rules reads nothing from a text without digits. */
  lemma NumberNeedsDigit(ps: seq<Pattern>, t: string)
    requires AllNumeric(ps)
    requires forall x :: 0 <= x < |t| ==> !IsDigit(t[x])
    ensures NumberFromTxt(ps, t) == None
  {
    forall j | 0 <= j < |ps|
      ensures Search(ps[j], t).None?
    {
      FoundNumberStartsWithDigit(ps[j], t);
    }
  }

  /** The number a numeric rule finds begins with a digit of the text. */
  lemma FoundNumberStartsWithDigit(p: Pattern, t: string)
    requires p.Numeric()
    ensures Search(p, t).Some? ==>
      Search(p, t).value.group.start < |t| && IsDigit(t[Search(p, t).value.group.start])
  {
    if Search(p, t).Some? {
      var g := Search(p, t).value.group;
      assert Captured(t, g)[0] == t[g.start];
    }
  }

  /** The bucket is unset exactly when no bucket rule matches anywhere, and
      it is a drive bucket exactly when the winning rule is one of the two
      that capture the drive-bucket words (rules 0 and 2). */
  lemma TxtBucketByRule(t: string)
    ensures BucketFromTxt(t).None? <==> forall j :: 0 <= j < |BucketPatterns| ==> Search(BucketPatterns[j], t).None?
    ensures BucketFromTxt(t) == Some(DriveBucket) <==>
      FirstHit(BucketPatterns, t).Some? && FirstHit(BucketPatterns, t).value.index in {0, 2}
  {
    var r := FirstHit(BucketPatterns, t);
    if r.Some? {
      var h := r.value;
      if h.index in {0, 2} {
        DriveBucketNamed(t, h.m.group.start);
      } else {
        StarterBucketLacksDrive(t, h.m.group.start);
      }
    }
  }

  /** A text that says "drive bucket" or "starter bucket" settles the bucket. */
  lemma TxtBucketFound(t: string)
    requires Contains(t, "drive bucket") || Contains(t, "starter bucket")
    ensures BucketFromTxt(t).Some?
  {
    if Contains(t, "drive bucket") {
      var x: nat :| x <= |t| && StartsAt(t, x, "drive bucket");
      DriveBucketAt(t, x);
      assert MatchAt(BucketPatterns[2], t, x).Some?;
      FirstHitSome(BucketPatterns, t, 2);
    } else {
      var x: nat :| x <= |t| && StartsAt(t, x, "starter bucket");
      StarterBucketAt(t, x);
      assert MatchAt(BucketPatterns[3], t, x).Some?;
      FirstHitSome(BucketPatterns, t, 3);
    }
  }

  /** Whenever a handle rule matches, the handle is settled: up-down exactly
      when the winning rule is one of the two that capture the up-down words
      (rules 0 and 2), rotary otherwise. */
  lemma TxtHandleByRule(t: string)
    ensures HandleFromTxt(t).None? <==> forall j :: 0 <= j < |HandlePatterns| ==> Search(HandlePatterns[j], t).None?
    ensures HandleFromTxt(t) == Some(UpDownHandle) <==>
      FirstHit(HandlePatterns, t).Some? && FirstHit(HandlePatterns, t).value.index in {0, 2}
  {
    var r := FirstHit(HandlePatterns, t);
    if r.Some? {
      var h := r.value;
      if h.index in {0, 2} {
        UpDownHandleNamed(t, h.m.group.start);
      } else {
        RotaryHandleLacksUp(t, h.m.group.start);
      }
    }
  }

  /** The pemstud keywords come down to "pemstud" or "pem stud": every
      other keyword contains "pemstud". */
  lemma PemstudKeywordsReduce(t: string)
    ensures ContainsAny(t, PemstudKeywords) <==> Contains(t, "pemstud") || Contains(t, "pem stud")
  {
    if ContainsAny(t, PemstudKeywords) {
      var k :| 0 <= k < |PemstudKeywords| && Contains(t, PemstudKeywords[k]);
      if k >= 2 {
        var off := if k == 5 then 5 else 0;
        ContainsWithin(t, PemstudKeywords[k], "pemstud", off);
      }
    }
    if Contains(t, "pemstud") {
      assert Contains(t, PemstudKeywords[0]);
    } else if Contains(t, "pem stud") {
      assert Contains(t, PemstudKeywords[1]);
    }
  }

  /** Every device panel keyword mentions "device panel". */
  lemma DevicePanelKeywordsNamePanel(t: string)
    ensures ContainsAny(t, DevicePanelKeywords) ==> Contains(t, "device panel")
  {
    if ContainsAny(t, DevicePanelKeywords) {
      var k :| 0 <= k < |DevicePanelKeywords| && Contains(t, DevicePanelKeywords[k]);
      KeywordNamesPanel(t, k);
    }
  }

  /** Device panel keyword `k` contains "device panel", so a text that says
      the keyword says "device panel". */
  lemma KeywordNamesPanel(t: string, k: nat)
    requires k < |DevicePanelKeywords|
    ensures Contains(t, DevicePanelKeywords[k]) ==> Contains(t, "device panel")
  {
    var w := DevicePanelKeywords[k];
    if Contains(t, w) {
      if k < 4 {
        StartsAtPart(w, 0, w, 0, 12);
        ContainsWithin(t, w, "device panel", 0);
      } else {
        var off := if k == 4 then 5 else 6;
        StartsAtPart(w, 0, w, off, off + 12);
        ContainsWithin(t, w, "device panel", off);
      }
    }
  }

  /** The RotoTract cutout is not tied to the type here: "with rototract"
      sets it although the type stays unset. */
  lemma RotoTractNotGatedByType()
    ensures CutoutsFromTxt("with rototract").rotoTract
    ensures TypeFromTxt("with rototract") == None
  {
    assert StartsAt("with rototract", 0, RotoTractKeywords[5]);
    NotContainsAbsentChar("with rototract", "freedom", 0);
    TxtTypeAbsent("with rototract");
  }

  /** With the type unknown, a text without digits leaves the gauge unset. */
  lemma UntypedThicknessNeedsDigit(t: string)
    requires TypeFromTxt(t).None?
    requires forall x :: 0 <= x < |t| ==> !IsDigit(t[x])
    ensures InfoFromTxt(t).thickness == None
  {
    assert AllNumeric(ThicknessPatterns);
    NumberNeedsDigit(ThicknessPatterns, t);
  }
}

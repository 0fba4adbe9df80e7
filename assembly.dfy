/**
 * The final summary assembled from the strict reader's record with
 * `info.get(key, default)`: a default applies only when the key is ABSENT,
 * so a key the reader set to `None` stays `None` in the summary.
 */
module Assembly {
  import opened Wrappers
  import opened Door
  import Text
  import StrictText

  /** One key of a record: absent, or present with a value that may be `None`. */
  datatype Slot<T> = Absent | Present(value: Option<T>)

  /** `d.get(key, default)`. */
  function Get<T>(s: Slot<T>, default: T): (r: Option<T>)
    ensures s.Present? ==> r == s.value
    ensures s.Absent? ==> r == Some(default)
  {
    match s
    case Absent => Some(default)
    case Present(v) => v
  }

  /** The keys of a `Cutouts` dictionary. */
  datatype CutoutSlots = CutoutSlots(
    rotoTract: Slot<bool>,
    fan: Slot<bool>,
    pemstud: Slot<bool>,
    devicePanel: Slot<bool>)

  /** The record as a dictionary: every key may be missing. A missing
      `Cutouts` key reads as an empty dictionary. */
  datatype RawInfo = RawInfo(
    typ: Slot<MccType>,
    arcRated: Slot<bool>,
    height: Slot<nat>,
    bucket: Slot<BucketType>,
    handle: Slot<HandleType>,
    cutouts: Option<CutoutSlots>,
    thickness: Slot<nat>)

  datatype FinalCutouts = FinalCutouts(
    rotoTract: Option<bool>,
    fan: Option<bool>,
    pemstud: Option<bool>,
    devicePanel: Option<bool>)

  /** The summary dictionary; a field is `None` only when the record held `None`. */
  datatype Final = Final(
    typ: Option<MccType>,
    arcRated: Option<bool>,
    height: Option<nat>,
    bucket: Option<BucketType>,
    handle: Option<HandleType>,
    cutouts: FinalCutouts,
    thickness: Option<nat>)

  /** What the strict reader returns when the file is missing or reading
      fails: an empty dictionary. */
  const EmptyInfo: RawInfo := RawInfo(Absent, Absent, Absent, Absent, Absent, None, Absent)

  const NoCutoutKeys: CutoutSlots := CutoutSlots(Absent, Absent, Absent, Absent)

  /** The summary dictionary built from `info`, key by key, with the defaults
      Freedom Plus, not arc rated, 48 inches, starter bucket, rotary handle,
      no RotoTract cutout, fan, pemstud and device panel cutouts, 14 gauge. */
  function AssembleSummary(info: RawInfo): (f: Final)
    ensures f.typ.None? ==> info.typ == Present(None)
    ensures f.arcRated.None? ==> info.arcRated == Present(None)
    ensures f.height.None? ==> info.height == Present(None)
    ensures f.bucket.None? ==> info.bucket == Present(None)
    ensures f.handle.None? ==> info.handle == Present(None)
    ensures f.thickness.None? ==> info.thickness == Present(None)
    ensures f.cutouts.rotoTract.None? ==> info.cutouts.Some? && info.cutouts.value.rotoTract == Present(None)
    ensures f.cutouts.fan.None? ==> info.cutouts.Some? && info.cutouts.value.fan == Present(None)
    ensures f.cutouts.pemstud.None? ==> info.cutouts.Some? && info.cutouts.value.pemstud == Present(None)
    ensures f.cutouts.devicePanel.None? ==> info.cutouts.Some? && info.cutouts.value.devicePanel == Present(None)
  {
    var c := match info.cutouts case None => NoCutoutKeys case Some(cs) => cs;
    Final(
      Get(info.typ, FreedomPlus),
      Get(info.arcRated, false),
      Get(info.height, DefaultHeight),
      Get(info.bucket, StarterBucket),
      Get(info.handle, RotaryHandle),
      FinalCutouts(
        Get(c.rotoTract, false),
        Get(c.fan, true),
        Get(c.pemstud, true),
        Get(c.devicePanel, true)),
      Get(info.thickness, 14))
  }

  /** The strict reader's record as a dictionary: every key is present. */
  function FromTxtInfo(i: StrictText.TxtInfo): (r: RawInfo)
    ensures r.cutouts.Some?
  {
    RawInfo(
      Present(i.typ), Present(i.arcRated), Present(i.height), Present(i.bucket),
      Present(i.handle),
      Some(CutoutSlots(
        Present(Some(i.cutouts.rotoTract)), Present(Some(i.cutouts.fan)),
        Present(Some(i.cutouts.pemstud)), Present(Some(i.cutouts.devicePanel)))),
      Present(i.thickness))
  }

  /** A summary written back as a dictionary: every key is present. */
  function FromFinal(f: Final): (r: RawInfo)
    ensures r.cutouts.Some?
  {
    RawInfo(
      Present(f.typ), Present(f.arcRated), Present(f.height), Present(f.bucket),
      Present(f.handle),
      Some(CutoutSlots(
        Present(f.cutouts.rotoTract), Present(f.cutouts.fan),
        Present(f.cutouts.pemstud), Present(f.cutouts.devicePanel))),
      Present(f.thickness))
  }

  // ---------------------------------------------------------------------
  // What the assembly promises.

  /** From an empty dictionary, the summary is all defaults. */
  lemma AssembleEmpty()
    ensures AssembleSummary(EmptyInfo) == Final(
      Some(FreedomPlus), Some(false), Some(DefaultHeight), Some(StarterBucket), Some(RotaryHandle),
      FinalCutouts(Some(false), Some(true), Some(true), Some(true)),
      Some(14))
  {
  }

  /** A present key is copied as it is, `None` included; only an absent key
      takes its default. */
  lemma AssembleKeepsPresent(info: RawInfo)
    ensures var f := AssembleSummary(info);
      && f.typ == (if info.typ.Present? then info.typ.value else Some(FreedomPlus))
      && f.arcRated == (if info.arcRated.Present? then info.arcRated.value else Some(false))
      && f.height == (if info.height.Present? then info.height.value else Some(DefaultHeight))
      && f.bucket == (if info.bucket.Present? then info.bucket.value else Some(StarterBucket))
      && f.handle == (if info.handle.Present? then info.handle.value else Some(RotaryHandle))
      && f.thickness == (if info.thickness.Present? then info.thickness.value else Some(14))
    ensures info.cutouts.Some? ==> var c := info.cutouts.value; var f := AssembleSummary(info).cutouts;
      && f.rotoTract == (if c.rotoTract.Present? then c.rotoTract.value else Some(false))
      && f.fan == (if c.fan.Present? then c.fan.value else Some(true))
      && f.pemstud == (if c.pemstud.Present? then c.pemstud.value else Some(true))
      && f.devicePanel == (if c.devicePanel.Present? then c.devicePanel.value else Some(true))
    ensures info.cutouts.None? ==>
      AssembleSummary(info).cutouts == FinalCutouts(Some(false), Some(true), Some(true), Some(true))
  {
  }

  /** Assembling a summary written back as a dictionary changes nothing. */
  lemma AssembleIdempotent(info: RawInfo)
    ensures AssembleSummary(FromFinal(AssembleSummary(info))) == AssembleSummary(info)
  {
  }

  /** The defaults never reach the strict reader's record: every field of the
      summary is the field the reader found, `None` where it found nothing. */
  lemma AssembleStrictKeepsUnknowns(i: StrictText.TxtInfo)
    ensures var f := AssembleSummary(FromTxtInfo(i));
      && f.typ == i.typ && f.arcRated == i.arcRated && f.height == i.height
      && f.bucket == i.bucket && f.handle == i.handle && f.thickness == i.thickness
      && f.cutouts == FinalCutouts(Some(i.cutouts.rotoTract), Some(i.cutouts.fan),
           Some(i.cutouts.pemstud), Some(i.cutouts.devicePanel))
  {
  }

  /** A file that never says "freedom" leaves the summary's type and arc
      rating unset: the "Freedom Plus" default does not apply. */
  lemma AssembleUntypedText(text: string)
    requires !Text.Contains(Text.Lower(text), "freedom")
    ensures var f := AssembleSummary(FromTxtInfo(StrictText.InfoFromTxt(Text.Lower(text))));
      f.typ == None && f.arcRated == None
  {
    StrictText.TxtTypeAbsent(Text.Lower(text));
  }
}

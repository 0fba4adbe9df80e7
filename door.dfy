/** The values a Motor Control Center door record can take. */
module Door {

  /** "Freedom Plus" or "Freedom Plus FlashGard" (the arc-rated line). */
  datatype MccType = FreedomPlus | FreedomPlusFlashGard

  /** "Drive Bucket" or "Starter Bucket". */
  datatype BucketType = DriveBucket | StarterBucket

  /** "Up-Down Handle" or "Rotary Handle". */
  datatype HandleType = UpDownHandle | RotaryHandle

  /** The door height, in inches, assumed when the text gives none. */
  const DefaultHeight: nat := 48

  /** Door sheet gauge implied by the arc rating: 12 gauge for an arc-rated
      door, 14 gauge otherwise. */
  function Gauge(arcRated: bool): (ga: nat)
    ensures ga == 12 <==> arcRated
    ensures ga == 14 <==> !arcRated
  {
    if arcRated then 12 else 14
  }
}

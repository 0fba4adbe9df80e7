/**
 * The regular expressions of the extractor, each written out as a scanner
 * over the lower-cased text, and `re.search` as a leftmost search.
 *
 * Each scanner consumes the longest run at every greedy repetition (`\s*`,
 * `\s+`, `\d+`, `[:\s]*`) and never retries. Most repetitions are followed
 * by a token that cannot begin with a character of the repetition. Where two
 * runs meet, as in the first `\s*` of `\s*:?\s*`, every way of splitting the
 * text between them ends at the same position. Either way backtracking
 * cannot turn a failure into a match.
 * Alternations of literal words (units such as `inch|inches|in|"`, trailing
 * words such as `door|thickness`) only decide WHETHER a match exists, and are
 * modelled as "some alternative fits"; alternations of labels decide where
 * group 1 starts, and are tried in order.
 */
module Patterns {
  import opened Wrappers
  import opened Text
  import opened Priority

  /** The span `s[start..end]` of capture group 1. */
  datatype Span = Span(start: nat, end: nat)

  /** A successful `re.search`: where the match begins, and its group 1. */
  datatype Match = Match(at: nat, group: Span)

  predicate SpanIn(g: Span, s: string) {
    g.start <= g.end <= |s|
  }

  /** `match.group(1)`. */
  function Captured(s: string, g: Span): string
    requires SpanIn(g, s)
  {
    s[g.start..g.end]
  }

  // ---------------------------------------------------------------------
  // Building blocks. Each takes a position and returns the position after
  // what it consumed, or None when it does not fit there.

  /** A literal word. */
  function Lit(s: string, i: nat, w: string): (r: Option<nat>)
    requires i <= |s|
    ensures r.Some? <==> StartsAt(s, i, w)
    ensures r.Some? ==> r.value == i + |w| <= |s|
  {
    if StartsAt(s, i, w) then Some(i + |w|) else None
  }

  /** `\s+`. */
  function Spaces1(s: string, i: nat): (r: Option<nat>)
    requires i <= |s|
    ensures r.Some? <==> i < |s| && IsSpace(s[i])
    ensures r.Some? ==> i < r.value && r.value == RunEnd(s, i, SpaceClass)
  {
    if i < |s| && IsSpace(s[i]) then Some(RunEnd(s, i, SpaceClass)) else None
  }

  /** `\s*:?\s*`. */
  function ColonGap(s: string, i: nat): (j: nat)
    requires i <= |s|
    ensures i <= j <= |s|
  {
    var a := RunEnd(s, i, SpaceClass);
    if a < |s| && s[a] == ':' then RunEnd(s, a + 1, SpaceClass) else a
  }

  /** `w1\s+w2`. */
  function Words(s: string, i: nat, w1: string, w2: string): (r: Option<nat>)
    requires i <= |s|
    ensures r.Some? ==> i <= r.value <= |s|
  {
    var a :- Lit(s, i, w1);
    var b :- Spaces1(s, a);
    Lit(s, b, w2)
  }

  /** `\d+`. */
  function Digits(s: string, i: nat): (r: Option<nat>)
    requires i <= |s|
    ensures r.Some? <==> i < |s| && IsDigit(s[i])
    ensures r.Some? ==> i < r.value <= |s| && AllDigits(s[i..r.value])
    ensures r.Some? ==> r.value == RunEnd(s, i, DigitClass)
  {
    if i < |s| && IsDigit(s[i]) then Some(RunEnd(s, i, DigitClass)) else None
  }

  /** `(?:w1|w2|…)` fits at `i`: some word of the list begins there. */
  predicate StartsAny(s: string, i: nat, ws: seq<string>)
    decreases |ws|
  {
    ws != [] && (StartsAt(s, i, ws[0]) || StartsAny(s, i, ws[1..]))
  }

  /** `(?:u1|u2|…)\s*(?:a1|a2|…)` fits at `k` for some unit and some word after it. */
  predicate UnitThen(s: string, k: nat, units: seq<string>, after: seq<string>)
    requires k <= |s|
    decreases |units|
  {
    units != [] &&
    ((StartsAt(s, k, units[0]) && StartsAny(s, RunEnd(s, k + |units[0]|, SpaceClass), after))
     || UnitThen(s, k, units[1..], after))
  }

  /** The alternative `ws[x]` fitting is enough for `(?:w1|w2|…)` to fit. */
  lemma {:induction false} StartsAnyAt(s: string, i: nat, ws: seq<string>, x: nat)
    requires x < |ws| && StartsAt(s, i, ws[x])
    decreases x
    ensures StartsAny(s, i, ws)
  {
    if x > 0 {
      StartsAnyAt(s, i, ws[1..], x - 1);
    }
  }

  /** A fitting alternative of `(?:w1|w2|…)` occurs in the text. */
  lemma {:induction false} StartsAnyContains(s: string, i: nat, ws: seq<string>)
    requires StartsAny(s, i, ws)
    decreases |ws|
    ensures exists y :: 0 <= y < |ws| && Contains(s, ws[y])
  {
    if StartsAt(s, i, ws[0]) {
      assert Contains(s, ws[0]);
    } else {
      StartsAnyContains(s, i, ws[1..]);
      var y :| 0 <= y < |ws[1..]| && Contains(s, ws[1..][y]);
      assert Contains(s, ws[y + 1]);
    }
  }

  /** The unit `units[x]` followed by the word `after[y]` is enough for
      `(?:units)\s*(?:after)` to fit. */
  lemma {:induction false} UnitThenAt(s: string, k: nat, units: seq<string>, after: seq<string>, x: nat, y: nat)
    requires k <= |s| && x < |units| && y < |after|
    requires StartsAt(s, k, units[x])
    requires StartsAt(s, RunEnd(s, k + |units[x]|, SpaceClass), after[y])
    decreases x
    ensures UnitThen(s, k, units, after)
  {
    if x == 0 {
      StartsAnyAt(s, RunEnd(s, k + |units[0]|, SpaceClass), after, y);
    } else {
      UnitThenAt(s, k, units[1..], after, x - 1, y);
    }
  }

  /** When `(?:units)\s*(?:after)` fits, one of the words after occurs in the text. */
  lemma {:induction false} UnitThenContains(s: string, k: nat, units: seq<string>, after: seq<string>)
    requires k <= |s| && UnitThen(s, k, units, after)
    decreases |units|
    ensures exists y :: 0 <= y < |after| && Contains(s, after[y])
  {
    if StartsAt(s, k, units[0]) && StartsAny(s, RunEnd(s, k + |units[0]|, SpaceClass), after) {
      StartsAnyContains(s, RunEnd(s, k + |units[0]|, SpaceClass), after);
    } else {
      UnitThenContains(s, k, units[1..], after);
    }
  }

  /** `(\d+)\s*(?:units)\s*(?:after)` at `k`, group 1 being the digit run.
      The list `Nothing` stands for a part a pattern does not have: the empty
      word always fits, and an extra `\s*` never changes whether a match exists. */
  function Number(s: string, k: nat, units: seq<string>, after: seq<string>): (r: Option<Span>)
    requires k <= |s|
    ensures r.Some? ==> r.value.start == k < r.value.end <= |s| && AllDigits(s[k..r.value.end])
  {
    var e :- Digits(s, k);
    if UnitThen(s, RunEnd(s, e, SpaceClass), units, after) then Some(Span(k, e)) else None
  }

  const Nothing: seq<string> := [""]

  /** `inches?|in|"` as `extract_mcc_info_from_text` writes it. */
  const DocInchUnits: seq<string> := ["inches", "inche", "in", "\""]

  /** `inch|inches|in|"` as `extract_info_from_txt` writes it. */
  const InchUnits: seq<string> := ["inch", "inches", "in", "\""]

  /** `ga|gauge`. */
  const GaugeUnits: seq<string> := ["ga", "gauge"]

  /** The word groups that the non-numeric patterns capture. */
  datatype Group =
    | FreedomPlusFlashGardWords   // freedom\s+plus\s+flashgard
    | FreedomPlusWords            // freedom\s+plus
    | DriveBucketWords            // drive\s*bucket
    | StarterBucketWords          // starter\s*bucket
    | UpDownHandleWords           // up[-\s]down\s*handle
    | RotaryHandleWords           // rotary\s*handle

  /** Where group `g` ends when it starts at `k`. */
  function GroupEnd(s: string, k: nat, g: Group): (r: Option<nat>)
    requires k <= |s|
    ensures r.Some? ==> k <= r.value <= |s|
  {
    match g
    case FreedomPlusFlashGardWords =>
      var a :- Words(s, k, "freedom", "plus");
      var b :- Spaces1(s, a);
      Lit(s, b, "flashgard")
    case FreedomPlusWords =>
      Words(s, k, "freedom", "plus")
    case DriveBucketWords =>
      var a :- Lit(s, k, "drive");
      Lit(s, RunEnd(s, a, SpaceClass), "bucket")
    case StarterBucketWords =>
      var a :- Lit(s, k, "starter");
      Lit(s, RunEnd(s, a, SpaceClass), "bucket")
    case UpDownHandleWords =>
      var a :- Lit(s, k, "up");
      if a < |s| && (s[a] == '-' || IsSpace(s[a])) then
        var b :- Lit(s, a + 1, "down");
        Lit(s, RunEnd(s, b, SpaceClass), "handle")
      else None
    case RotaryHandleWords =>
      var a :- Lit(s, k, "rotary");
      Lit(s, RunEnd(s, a, SpaceClass), "handle")
  }

  /** How a label is spelled: a literal, or two words with `\s+` between them. */
  datatype Label = Word(w: string) | TwoWords(first: string, second: string)

  /** Where label `l` ends when it starts at `i`. */
  function LabelEnd(s: string, i: nat, l: Label): (r: Option<nat>)
    requires i <= |s|
    ensures r.Some? ==> i <= r.value <= |s|
  {
    match l
    case Word(w) => Lit(s, i, w)
    case TwoWords(w1, w2) => Words(s, i, w1, w2)
  }

  /** What separates a label from the number after it. */
  datatype Gap =
    | ColonsAndSpaces   // [:\s]*
    | OptionalColon     // \s*:?\s*

  function GapEnd(s: string, k: nat, gap: Gap): (j: nat)
    requires k <= |s|
    ensures k <= j <= |s|
  {
    match gap
    case ColonsAndSpaces => RunEnd(s, k, ColonOrSpaceClass)
    case OptionalColon => ColonGap(s, k)
  }

  /** The shapes of the extractor's regular expressions. Lists of labels are
      ordered alternations `(?:l1|l2|…)`; lists of units and of trailing words
      only decide whether a match exists. */
  datatype Pattern =
    | LabelledNumber(labels: seq<Label>, gap: Gap, units: seq<string>)   // (?:labels)gap(\d+)\s*(?:units)
    | NumberThen(units: seq<string>, after: seq<string>)                 // (\d+)\s*(?:units)\s*(?:after)
    | LabelledWords(labels: seq<Label>, g: Group)                        // (?:labels)\s*:?\s*(group)
    | BareWords(g: Group)                                                // (group)
    | WordsNotBefore(g: Group, next: string)                             // (group)(?!\s+next)
  {
    /** Group 1 of the pattern is a number. */
    predicate Numeric() {
      LabelledNumber? || NumberThen?
    }

    /** The words group 1 of a non-numeric pattern captures. */
    function Words(): Group
      requires !Numeric()
    {
      g
    }
  }

  /** `(group)` at `k`. */
  function Bare(s: string, k: nat, g: Group): (r: Option<Span>)
    requires k <= |s|
    ensures r.Some? ==> r.value.start == k && SpanIn(r.value, s) && GroupEnd(s, k, g) == Some(r.value.end)
  {
    var e :- GroupEnd(s, k, g);
    Some(Span(k, e))
  }

  /** `\s+w` fits at `e`: what a negative lookahead `(?!\s+w)` rules out. */
  predicate Followed(s: string, e: nat, w: string)
    requires e <= |s|
  {
    match Spaces1(s, e)
    case Some(b) => StartsAt(s, b, w)
    case None => false
  }

  /** `(?:labels)gap(\d+)\s*(?:units)` at `i`, the labels tried in order. */
  function LabelledNumberAt(s: string, i: nat, labels: seq<Label>, gap: Gap, units: seq<string>): (r: Option<Span>)
    requires i <= |s|
    decreases |labels|
    ensures r.Some? ==> i <= r.value.start < r.value.end <= |s| && AllDigits(Captured(s, r.value))
  {
    if labels == [] then None
    else
      var first :=
        match LabelEnd(s, i, labels[0])
        case None => None
        case Some(e) => Number(s, GapEnd(s, e, gap), units, Nothing);
      if first.Some? then first else LabelledNumberAt(s, i, labels[1..], gap, units)
  }

  /** `(?:labels)\s*:?\s*(group)` at `i`, the labels tried in order. */
  function LabelledWordsAt(s: string, i: nat, labels: seq<Label>, g: Group): (r: Option<Span>)
    requires i <= |s|
    decreases |labels|
    ensures r.Some? ==> i <= r.value.start && SpanIn(r.value, s) && GroupEnd(s, r.value.start, g) == Some(r.value.end)
  {
    if labels == [] then None
    else
      var first :=
        match LabelEnd(s, i, labels[0])
        case None => None
        case Some(e) => Bare(s, ColonGap(s, e), g);
      if first.Some? then first else LabelledWordsAt(s, i, labels[1..], g)
  }

  /** Group 1 of pattern `p` when a match of `p` begins at `i`. */
  function MatchAt(p: Pattern, s: string, i: nat): (r: Option<Span>)
    requires i <= |s|
    ensures r.Some? ==> i <= r.value.start && SpanIn(r.value, s)
    ensures r.Some? && p.Numeric() ==>
      r.value.start < r.value.end && AllDigits(Captured(s, r.value))
    ensures r.Some? && !p.Numeric() ==>
      GroupEnd(s, r.value.start, p.Words()) == Some(r.value.end)
  {
    match p
    case LabelledNumber(labels, gap, units) => LabelledNumberAt(s, i, labels, gap, units)
    case NumberThen(units, after) => Number(s, i, units, after)
    case LabelledWords(labels, g) => LabelledWordsAt(s, i, labels, g)
    case BareWords(g) => Bare(s, i, g)
    case WordsNotBefore(g, next) =>
      var e :- GroupEnd(s, i, g);
      if Followed(s, e, next) then None else Some(Span(i, e))
  }

  /** A labelled number matches where its first label is followed by the gap
      and a digit run that the units follow; group 1 is that digit run. */
  lemma LabelledNumberFirst(s: string, i: nat, labels: seq<Label>, gap: Gap, units: seq<string>, k: nat)
    requires i <= |s| && |labels| > 0 && LabelEnd(s, i, labels[0]).Some?
    requires k == GapEnd(s, LabelEnd(s, i, labels[0]).value, gap)
    requires k < |s| && IsDigit(s[k])
    requires UnitThen(s, RunEnd(s, RunEnd(s, k, DigitClass), SpaceClass), units, Nothing)
    ensures MatchAt(LabelledNumber(labels, gap, units), s, i) == Some(Span(k, RunEnd(s, k, DigitClass)))
  {
  }

  /** A labelled number matches only where one of its labels begins. */
  lemma {:induction false} LabelledNumberNeedsLabel(s: string, i: nat, labels: seq<Label>, gap: Gap, units: seq<string>)
    requires i <= |s| && LabelledNumberAt(s, i, labels, gap, units).Some?
    decreases |labels|
    ensures exists x :: 0 <= x < |labels| && LabelEnd(s, i, labels[x]).Some?
  {
    if LabelEnd(s, i, labels[0]).None? {
      LabelledNumberNeedsLabel(s, i, labels[1..], gap, units);
      var x :| 0 <= x < |labels[1..]| && LabelEnd(s, i, labels[1..][x]).Some?;
      assert LabelEnd(s, i, labels[x + 1]).Some?;
    }
  }

  /** `(\d+)\s*(?:units)\s*(?:after)` matches only where one of the words after occurs. */
  lemma NumberNeedsAfter(s: string, i: nat, units: seq<string>, after: seq<string>)
    requires i <= |s| && Number(s, i, units, after).Some?
    ensures exists y :: 0 <= y < |after| && Contains(s, after[y])
  {
    UnitThenContains(s, RunEnd(s, RunEnd(s, i, DigitClass), SpaceClass), units, after);
  }

  /** The outcome of trying pattern `p` at every start position 0..|s|. */
  function Attempts(p: Pattern, s: string): (t: seq<Option<Span>>)
    ensures |t| == |s| + 1
    ensures forall j :: 0 <= j <= |s| ==> t[j] == MatchAt(p, s, j)
  {
    seq(|s| + 1, j requires 0 <= j <= |s| => MatchAt(p, s, j))
  }

  /** `re.search(p, s)`: the match that begins leftmost, if any. */
  function Search(p: Pattern, s: string): (r: Option<Match>)
    ensures r.None? <==> forall j :: 0 <= j <= |s| ==> MatchAt(p, s, j).None?
    ensures r.Some? ==> r.value.at <= |s| && MatchAt(p, s, r.value.at) == Some(r.value.group)
    ensures r.Some? ==> forall j :: 0 <= j < r.value.at ==> MatchAt(p, s, j).None?
    ensures r.Some? ==> SpanIn(r.value.group, s)
    ensures r.Some? && p.Numeric() ==> AllDigits(Captured(s, r.value.group))
    ensures r.Some? && !p.Numeric() ==> GroupEnd(s, r.value.group.start, p.Words()) == Some(r.value.group.end)
  {
    match FirstSome(Attempts(p, s), 0)
    case None => None
    case Some(f) => Some(Match(f.index, f.value))
  }

  /** A pattern that matches at the very start is found there. */
  lemma SearchAtStart(p: Pattern, s: string)
    requires MatchAt(p, s, 0).Some?
    ensures Search(p, s) == Some(Match(0, MatchAt(p, s, 0).value))
  {
  }

  // ---------------------------------------------------------------------
  // What the captured words contain: the tests the extractor applies to
  // `match.group(1)`.

  lemma SpacesLackChar(s: string, a: nat, b: nat, ch: char)
    requires a <= b <= |s|
    requires forall x :: a <= x < b ==> IsSpace(s[x])
    requires !IsSpace(ch)
    ensures ch !in s[a..b]
  {
    forall x | 0 <= x < b - a
      ensures s[a..b][x] != ch
    {
      assert s[a..b][x] == s[a + x];
    }
  }

  lemma FreedomPlusLacksFlashGard(s: string, k: nat)
    requires k <= |s| && GroupEnd(s, k, FreedomPlusWords).Some?
    ensures !Contains(s[k..GroupEnd(s, k, FreedomPlusWords).value], "flashgard")
  {
    var e := GroupEnd(s, k, FreedomPlusWords).value;
    var a := k + 7;
    var b := Spaces1(s, a).value;
    assert StartsAt(s, k, "freedom") && StartsAt(s, b, "plus") && e == b + 4;
    SpacesLackChar(s, a, b, 'g');
    assert s[k..e] == "freedom" + s[a..b] + "plus";
    NotContainsAbsentChar(s[k..e], "flashgard", 5);
  }

  lemma StarterBucketLacksDrive(s: string, k: nat)
    requires k <= |s| && GroupEnd(s, k, StarterBucketWords).Some?
    ensures !Contains(s[k..GroupEnd(s, k, StarterBucketWords).value], "drive")
  {
    var e := GroupEnd(s, k, StarterBucketWords).value;
    var a := k + 7;
    var b := RunEnd(s, a, SpaceClass);
    assert StartsAt(s, k, "starter") && StartsAt(s, b, "bucket") && e == b + 6;
    SpacesLackChar(s, a, b, 'v');
    assert s[k..e] == "starter" + s[a..b] + "bucket";
    NotContainsAbsentChar(s[k..e], "drive", 3);
  }

  lemma RotaryHandleLacksUp(s: string, k: nat)
    requires k <= |s| && GroupEnd(s, k, RotaryHandleWords).Some?
    ensures !Contains(s[k..GroupEnd(s, k, RotaryHandleWords).value], "up")
    ensures Contains(s[k..GroupEnd(s, k, RotaryHandleWords).value], "rotary")
  {
    var e := GroupEnd(s, k, RotaryHandleWords).value;
    var a := k + 6;
    var b := RunEnd(s, a, SpaceClass);
    assert StartsAt(s, k, "rotary") && StartsAt(s, b, "handle") && e == b + 6;
    SpacesLackChar(s, a, b, 'u');
    assert s[k..e] == "rotary" + s[a..b] + "handle";
    NotContainsAbsentChar(s[k..e], "up", 0);
    ContainsInSlice(s, k, e, k, "rotary");
  }

  lemma FlashGardWordsNamed(s: string, k: nat)
    requires k <= |s| && GroupEnd(s, k, FreedomPlusFlashGardWords).Some?
    ensures Contains(s[k..GroupEnd(s, k, FreedomPlusFlashGardWords).value], "flashgard")
  {
    var e := GroupEnd(s, k, FreedomPlusFlashGardWords).value;
    assert StartsAt(s, e - 9, "flashgard");
    ContainsInSlice(s, k, e, e - 9, "flashgard");
  }

  lemma DriveBucketNamed(s: string, k: nat)
    requires k <= |s| && GroupEnd(s, k, DriveBucketWords).Some?
    ensures Contains(s[k..GroupEnd(s, k, DriveBucketWords).value], "drive")
  {
    var e := GroupEnd(s, k, DriveBucketWords).value;
    ContainsInSlice(s, k, e, k, "drive");
  }

  lemma UpDownHandleNamed(s: string, k: nat)
    requires k <= |s| && GroupEnd(s, k, UpDownHandleWords).Some?
    ensures Contains(s[k..GroupEnd(s, k, UpDownHandleWords).value], "up")
    ensures Contains(s[k..GroupEnd(s, k, UpDownHandleWords).value], "down")
  {
    var e := GroupEnd(s, k, UpDownHandleWords).value;
    ContainsInSlice(s, k, e, k, "up");
    ContainsInSlice(s, k, e, k + 3, "down");
  }

  // ---------------------------------------------------------------------
  // Where the word groups are found.

  /** Both Freedom Plus groups begin with the word "freedom". */
  lemma FreedomGroupsStartWithFreedom(s: string, k: nat, g: Group)
    requires k <= |s| && (g == FreedomPlusWords || g == FreedomPlusFlashGardWords)
    requires GroupEnd(s, k, g).Some?
    ensures StartsAt(s, k, "freedom")
  {
  }

  /** A space between two words is a one-character `\s+` or `\s*` run. */
  lemma SingleSpace(s: string, x: nat)
    requires x + 1 < |s| && s[x] == ' ' && !IsSpace(s[x + 1])
    ensures RunEnd(s, x, SpaceClass) == x + 1
  {
    RunEndAt(s, x, x + 1, SpaceClass);
  }

  /** "freedom plus" written with one space is `freedom\s+plus`. */
  lemma FreedomPlusAt(s: string, x: nat)
    requires StartsAt(s, x, "freedom plus")
    ensures GroupEnd(s, x, FreedomPlusWords) == Some(x + 12)
  {
    StartsAtChars(s, x, "freedom plus");
    StartsAtPart(s, x, "freedom plus", 0, 7);
    StartsAtPart(s, x, "freedom plus", 8, 12);
    assert "freedom plus"[0..7] == "freedom" && "freedom plus"[8..12] == "plus";
    SingleSpace(s, x + 7);
  }

  /** Wherever "freedom plus" occurs, either the FlashGard group or the
      plain group not followed by "flashgard" matches there. */
  lemma FreedomPlusNamedMatches(s: string, x: nat)
    requires StartsAt(s, x, "freedom plus")
    ensures MatchAt(BareWords(FreedomPlusFlashGardWords), s, x).Some?
      || MatchAt(WordsNotBefore(FreedomPlusWords, "flashgard"), s, x).Some?
  {
    FreedomPlusAt(s, x);
  }

  /** "drive bucket" written with one space is `drive\s*bucket`. */
  lemma DriveBucketAt(s: string, x: nat)
    requires StartsAt(s, x, "drive bucket")
    ensures GroupEnd(s, x, DriveBucketWords) == Some(x + 12)
  {
    StartsAtChars(s, x, "drive bucket");
    StartsAtPart(s, x, "drive bucket", 0, 5);
    StartsAtPart(s, x, "drive bucket", 6, 12);
    assert "drive bucket"[0..5] == "drive" && "drive bucket"[6..12] == "bucket";
    SingleSpace(s, x + 5);
  }

  /** "starter bucket" written with one space is `starter\s*bucket`. */
  lemma StarterBucketAt(s: string, x: nat)
    requires StartsAt(s, x, "starter bucket")
    ensures GroupEnd(s, x, StarterBucketWords) == Some(x + 14)
  {
    StartsAtChars(s, x, "starter bucket");
    StartsAtPart(s, x, "starter bucket", 0, 7);
    StartsAtPart(s, x, "starter bucket", 8, 14);
    assert "starter bucket"[0..7] == "starter" && "starter bucket"[8..14] == "bucket";
    SingleSpace(s, x + 7);
  }
}

/**
 * `extract_summary_from_conversation`: the summary read from a chat
 * history. Every message after the first (the system prompt) is joined
 * with single spaces and lower-cased, and each field is a keyword test on
 * that corpus, except the height, which is the number before the LAST
 * "inch" in it. Every field is always set.
 */
module Conversation {
  import opened Wrappers
  import opened Text
  import opened Door
  import opened Patterns

  /** One chat message; only its content is read. */
  datatype Message = Message(role: string, content: string)

  /** The four cutout flags of a conversation summary. The reset flag the
      summariser computes is not part of what it returns. */
  datatype ConvCutouts = ConvCutouts(
    rotoTract: bool,
    fan: bool,
    pemstud: bool,
    devicePanel: bool)

  datatype Summary = Summary(
    typ: MccType,
    arcRated: bool,
    height: nat,
    bucket: BucketType,
    handle: HandleType,
    cutouts: ConvCutouts,
    thickness: nat)


  /** `" ".join(cs)`. */
  function JoinSpace(cs: seq<string>): (r: string)
    decreases |cs|
  {
    if |cs| == 0 then ""
    else if |cs| == 1 then cs[0]
    else JoinSpace(cs[..|cs| - 1]) + " " + cs[|cs| - 1]
  }

  /** Appending one more string to the list appends it to the join, after a
      separating space unless the list was empty. */
  lemma JoinSpaceAppend(cs: seq<string>, c: string)
    ensures JoinSpace(cs + [c]) == if cs == [] then c else JoinSpace(cs) + " " + c
  {
    assert (cs + [c])[..|cs|] == cs;
  }

  /** `messages[1:]`: every message but the first. */
  function Later(ms: seq<Message>): (r: seq<Message>)
    ensures |ms| > 0 ==> |r| == |ms| - 1 && forall i :: 0 <= i < |r| ==> r[i] == ms[i + 1]
    ensures |ms| == 0 ==> r == []
  {
    if |ms| == 0 then [] else ms[1..]
  }

  function Contents(ms: seq<Message>): (r: seq<string>)
    ensures |r| == |ms| && forall i :: 0 <= i < |ms| ==> r[i] == ms[i].content
  {
    seq(|ms|, i requires 0 <= i < |ms| => ms[i].content)
  }

  /** The lower-cased text the summary is read from. */
  function Corpus(ms: seq<Message>): (c: string)
    ensures forall i :: 0 <= i < |c| ==> !IsUpper(c[i])
    ensures |ms| <= 1 ==> c == []
  {
    Lower(JoinSpace(Contents(Later(ms))))
  }

  // ---------------------------------------------------------------------
  // `re.findall(r'(\d+)\s*inch', corpus)`

  /** One match: group 1, and where the whole match ends. */
  datatype InchMatch = InchMatch(group: Span, end: nat)

  /** The literal `inch` at `k`, letter by letter. */
  predicate InchAt(s: string, k: nat) {
    k + 4 <= |s| && s[k] == 'i' && s[k + 1] == 'n' && s[k + 2] == 'c' && s[k + 3] == 'h'
  }

  lemma InchAtIsLiteral(s: string, k: nat)
    ensures InchAt(s, k) <==> StartsAt(s, k, "inch")
  {
    if StartsAt(s, k, "inch") {
      StartsAtChars(s, k, "inch");
    }
    if InchAt(s, k) {
      assert s[k..k + 4] == "inch";
    }
  }

  /** `(\d+)\s*inch` at `i`: the longest run of digits, the longest run of
      spaces after it, then `inch`. */
  function InchMatchAt(s: string, i: nat): (r: Option<InchMatch>)
    requires i <= |s|
    ensures r.Some? ==> i == r.value.group.start < r.value.group.end < r.value.end <= |s|
  {
    if i < |s| && IsDigit(s[i]) then
      var e := RunEnd(s, i, DigitClass);
      var k := RunEnd(s, e, SpaceClass);
      if InchAt(s, k) then Some(InchMatch(Span(i, e), k + 4)) else None
    else None
  }

  /** The groups of the non-overlapping matches from `i` on, left to right:
      after a match the scan resumes where it ended, after a failure one
      character further. */
  function InchMatches(s: string, i: nat): (r: seq<Span>)
    requires i <= |s|
    decreases |s| - i
    ensures forall j :: 0 <= j < |r| ==> i <= r[j].start < r[j].end <= |s|
  {
    if i == |s| then []
    else
      match InchMatchAt(s, i)
      case None => InchMatches(s, i + 1)
      case Some(m) => [m.group] + InchMatches(s, m.end)
  }

  /** A failed match at `i` moves the scan one character on. */
  lemma InchMatchesMiss(s: string, i: nat)
    requires i < |s| && InchMatchAt(s, i).None?
    ensures InchMatches(s, i) == InchMatches(s, i + 1)
  {
  }

  /** A match at `i` contributes its group and the scan resumes at its end. */
  lemma InchMatchesHit(s: string, i: nat, m: InchMatch)
    requires i < |s| && InchMatchAt(s, i) == Some(m)
    ensures InchMatches(s, i) == [m.group] + InchMatches(s, m.end)
  {
  }

  /** Past a position where nothing matches, "no match from here on" is
      "no match from the next position on". */
  lemma NoMatchPastMiss(s: string, i: nat)
    requires i < |s| && InchMatchAt(s, i).None?
    ensures (forall p :: i <= p < |s| ==> InchMatchAt(s, p).None?)
      <==> (forall p :: i + 1 <= p < |s| ==> InchMatchAt(s, p).None?)
  {
  }

  /** `findall` returns nothing exactly when no match starts at `i` or later. */
  lemma {:induction false} InchMatchesEmpty(s: string, i: nat)
    requires i <= |s|
    decreases |s| - i
    ensures InchMatches(s, i) == [] <==> forall p :: i <= p < |s| ==> InchMatchAt(s, p).None?
  {
    if i < |s| {
      if InchMatchAt(s, i).None? {
        InchMatchesMiss(s, i);
        InchMatchesEmpty(s, i + 1);
        NoMatchPastMiss(s, i);
      } else {
        InchMatchesHit(s, i, InchMatchAt(s, i).value);
      }
    }
  }

  /** `g` is group 1 of a match of `(\d+)\s*inch` that starts where `g` does. */
  predicate IsMatchGroup(s: string, g: Span) {
    g.start <= |s| && InchMatchAt(s, g.start).Some? && InchMatchAt(s, g.start).value.group == g
  }

  /** Every group of `r` is the group of a match that starts there. */
  predicate AllMatchGroups(s: string, r: seq<Span>) {
    forall j :: 0 <= j < |r| ==> IsMatchGroup(s, r[j])
  }

  lemma AllMatchGroupsCons(s: string, g: Span, t: seq<Span>)
    requires IsMatchGroup(s, g) && AllMatchGroups(s, t)
    ensures AllMatchGroups(s, [g] + t)
  {
    var r := [g] + t;
    forall j | 0 <= j < |r|
      ensures IsMatchGroup(s, r[j])
    {
      if j > 0 {
        assert r[j] == t[j - 1];
      }
    }
  }

  /** Every group `findall` returns is the group of a match that starts there. */
  lemma {:induction false} InchMatchesAreMatches(s: string, i: nat)
    requires i <= |s|
    decreases |s| - i
    ensures AllMatchGroups(s, InchMatches(s, i))
  {
    if i < |s| {
      if InchMatchAt(s, i).None? {
        InchMatchesMiss(s, i);
        InchMatchesAreMatches(s, i + 1);
      } else {
        var m := InchMatchAt(s, i).value;
        InchMatchesHit(s, i, m);
        InchMatchesAreMatches(s, m.end);
        AllMatchGroupsCons(s, m.group, InchMatches(s, m.end));
      }
    }
  }

  /** The first group `findall` returns belongs to the first match from `i` on. */
  lemma {:induction false} InchMatchesFirst(s: string, i: nat)
    requires i <= |s|
    decreases |s| - i
    ensures var r := InchMatches(s, i);
      r != [] ==> forall p :: i <= p < r[0].start ==> InchMatchAt(s, p).None?
  {
    if i < |s| && InchMatchAt(s, i).None? {
      InchMatchesMiss(s, i);
      InchMatchesFirst(s, i + 1);
    }
  }

  /** Groups in text order, none overlapping the next. */
  predicate Ascending(r: seq<Span>) {
    forall j :: 0 <= j < |r| - 1 ==> r[j].end < r[j + 1].start
  }

  /** A group that ends before a list of ascending groups starts extends it. */
  lemma AscendingCons(g: Span, t: seq<Span>, e: nat)
    requires Ascending(t) && g.end < e
    requires t != [] ==> e <= t[0].start
    ensures Ascending([g] + t)
  {
    var r := [g] + t;
    forall j | 0 <= j < |r| - 1
      ensures r[j].end < r[j + 1].start
    {
      if j > 0 {
        assert r[j] == t[j - 1] && r[j + 1] == t[j];
      }
    }
  }

  /** The groups `findall` returns are in text order and do not overlap. */
  lemma {:induction false} InchMatchesInOrder(s: string, i: nat)
    requires i <= |s|
    decreases |s| - i
    ensures Ascending(InchMatches(s, i))
  {
    if i < |s| {
      if InchMatchAt(s, i).None? {
        InchMatchesMiss(s, i);
        InchMatchesInOrder(s, i + 1);
      } else {
        var m := InchMatchAt(s, i).value;
        InchMatchesHit(s, i, m);
        InchMatchesInOrder(s, m.end);
        AscendingCons(m.group, InchMatches(s, m.end), m.end);
      }
    }
  }

  /** No match of `(\d+)\s*inch` starts in `[a, b)`. */
  predicate NoMatchFrom(s: string, a: nat, b: nat) {
    forall p :: a <= p < b && p <= |s| ==> InchMatchAt(s, p).None?
  }

  /** `g` is the group of a match and `h` follows it with no match starting
      between the end of that match and the start of `h`. */
  predicate NextMatch(s: string, g: Span, h: Span) {
    IsMatchGroup(s, g) && NoMatchFrom(s, InchMatchAt(s, g.start).value.end, h.start)
  }

  /** No match is skipped between consecutive groups of `r`. */
  predicate Gapless(s: string, r: seq<Span>) {
    forall j :: 0 <= j < |r| - 1 ==> NextMatch(s, r[j], r[j + 1])
  }

  lemma GaplessCons(s: string, g: Span, t: seq<Span>)
    requires Gapless(s, t)
    requires t != [] ==> NextMatch(s, g, t[0])
    ensures Gapless(s, [g] + t)
  {
    var r := [g] + t;
    forall j | 0 <= j < |r| - 1
      ensures NextMatch(s, r[j], r[j + 1])
    {
      if j > 0 {
        assert r[j] == t[j - 1] && r[j + 1] == t[j];
      }
    }
  }

  /** After the match of one group, the scan finds the next match that
      starts: no match begins between one group's match and the next group. */
  lemma {:induction false} InchMatchesNoGap(s: string, i: nat)
    requires i <= |s|
    decreases |s| - i, 1
    ensures Gapless(s, InchMatches(s, i))
  {
    if i < |s| {
      if InchMatchAt(s, i).None? {
        InchMatchesMiss(s, i);
        InchMatchesNoGap(s, i + 1);
      } else {
        InchMatchesNoGapAfterHit(s, i, InchMatchAt(s, i).value);
      }
    }
  }

  /** The step of `InchMatchesNoGap` past a match at `i`. */
  lemma {:induction false} InchMatchesNoGapAfterHit(s: string, i: nat, m: InchMatch)
    requires i < |s| && InchMatchAt(s, i) == Some(m)
    decreases |s| - i, 0
    ensures Gapless(s, InchMatches(s, i))
  {
    var t := InchMatches(s, m.end);
    InchMatchesHit(s, i, m);
    InchMatchesNoGap(s, m.end);
    InchMatchesFirstGap(s, m.end);
    MatchThenGap(s, i, m, t);
    GaplessCons(s, m.group, t);
  }

  /** `InchMatchesFirst` in terms of `NoMatchFrom`. */
  lemma InchMatchesFirstGap(s: string, i: nat)
    requires i <= |s|
    ensures var r := InchMatches(s, i); r != [] ==> NoMatchFrom(s, i, r[0].start)
  {
    InchMatchesFirst(s, i);
  }

  /** A match at `i` followed by a stretch without matches up to `t`'s first
      group is followed by that group. */
  lemma MatchThenGap(s: string, i: nat, m: InchMatch, t: seq<Span>)
    requires i < |s| && InchMatchAt(s, i) == Some(m)
    requires t != [] ==> NoMatchFrom(s, m.end, t[0].start)
    ensures t != [] ==> NextMatch(s, m.group, t[0])
  {
  }

  /** `g` is the group of a match after whose end no match starts. */
  predicate FinalMatch(s: string, g: Span) {
    IsMatchGroup(s, g) && NoMatchFrom(s, InchMatchAt(s, g.start).value.end, |s|)
  }

  /** `r` is empty or its last group is that of a final match. */
  predicate EndsFinal(s: string, r: seq<Span>) {
    r != [] ==> FinalMatch(s, r[|r| - 1])
  }

  lemma FinalOfCons(s: string, g: Span, t: seq<Span>)
    requires t != [] && EndsFinal(s, t)
    ensures EndsFinal(s, [g] + t)
  {
    assert ([g] + t)[|[g] + t| - 1] == t[|t| - 1];
  }

  /** The last group `findall` returns belongs to a match after which no
      match starts: the scan misses nothing at the end of the text. */
  lemma {:induction false} InchMatchesLastComplete(s: string, i: nat)
    requires i <= |s|
    decreases |s| - i, 1
    ensures EndsFinal(s, InchMatches(s, i))
  {
    if i < |s| {
      if InchMatchAt(s, i).None? {
        InchMatchesMiss(s, i);
        InchMatchesLastComplete(s, i + 1);
      } else {
        InchMatchesLastAfterHit(s, i, InchMatchAt(s, i).value);
      }
    }
  }

  /** `InchMatchesEmpty` in terms of `NoMatchFrom`. */
  lemma InchMatchesNoneLeft(s: string, i: nat)
    requires i <= |s|
    ensures InchMatches(s, i) == [] ==> NoMatchFrom(s, i, |s|)
  {
    InchMatchesEmpty(s, i);
  }

  /** A match at `i` with no match after its end is a final match. */
  lemma MatchThenNothing(s: string, i: nat, m: InchMatch)
    requires i < |s| && InchMatchAt(s, i) == Some(m)
    ensures NoMatchFrom(s, m.end, |s|) ==> FinalMatch(s, m.group)
  {
  }

  /** The step of `InchMatchesLastComplete` past a match at `i`. */
  lemma {:induction false} InchMatchesLastAfterHit(s: string, i: nat, m: InchMatch)
    requires i < |s| && InchMatchAt(s, i) == Some(m)
    decreases |s| - i, 0
    ensures EndsFinal(s, InchMatches(s, i))
  {
    InchMatchesHit(s, i, m);
    var t := InchMatches(s, m.end);
    if t == [] {
      InchMatchesNoneLeft(s, m.end);
      MatchThenNothing(s, i, m);
      assert ([m.group] + t)[|[m.group] + t| - 1] == m.group;
    } else {
      InchMatchesLastComplete(s, m.end);
      FinalOfCons(s, m.group, t);
    }
  }

  /** `int(height_matches[-1])` when there is a match, else 48. */
  function HeightFromCorpus(c: string): (h: nat)
    ensures (forall p :: 0 <= p < |c| ==> InchMatchAt(c, p).None?) ==> h == DefaultHeight
  {
    InchMatchesEmpty(c, 0);
    InchMatchesAreMatches(c, 0);
    var ms := InchMatches(c, 0);
    if |ms| > 0 then DecimalValue(Captured(c, ms[|ms| - 1])) else DefaultHeight
  }

  /** When some match of `(\d+)\s*inch` exists, the height is the number
      captured by a match after whose end no match starts: the last one. */
  lemma HeightIsFinalMatch(c: string)
    ensures (exists p :: 0 <= p < |c| && InchMatchAt(c, p).Some?) ==>
      exists g :: FinalMatch(c, g) && SpanIn(g, c) && AllDigits(Captured(c, g))
        && HeightFromCorpus(c) == DecimalValue(Captured(c, g))
  {
    var ms := InchMatches(c, 0);
    if ms != [] {
      InchMatchesLastComplete(c, 0);
      var g := ms[|ms| - 1];
      FinalMatchDigits(c, g);
      assert HeightFromCorpus(c) == DecimalValue(Captured(c, g));
    } else {
      InchMatchesNoneLeft(c, 0);
    }
  }

  /** The group of a final match lies in the text and is all digits. */
  lemma FinalMatchDigits(s: string, g: Span)
    ensures FinalMatch(s, g) ==> SpanIn(g, s) && AllDigits(Captured(s, g))
  {
  }

  // ---------------------------------------------------------------------
  // The summary.

  /** What holds of every conversation summary: the arc rating is the
      FlashGard type, the gauge follows the arc rating, and RotoTract is only
      ever reported for an arc-rated door. */
  predicate ConvConsistent(r: Summary) {
    && (r.arcRated <==> r.typ == FreedomPlusFlashGard)
    && r.thickness == Gauge(r.arcRated)
    && (r.cutouts.rotoTract ==> r.arcRated)
  }

  function ExtractSummaryFromConversation(messages: seq<Message>): (r: Summary)
    ensures ConvConsistent(r)
    ensures r.cutouts.rotoTract <==> Contains(Corpus(messages), "rototract") && r.arcRated
  {
    var c := Corpus(messages);
    var typ := if Contains(c, "flashgard") then FreedomPlusFlashGard else FreedomPlus;
    var arc := Contains(c, "flashgard");
    var bucket := if Contains(c, "drive") then DriveBucket else StarterBucket;
    var handle :=
      if Contains(c, "up-down handle") || Contains(c, "up down handle") then UpDownHandle
      else RotaryHandle;
    var cutouts := ConvCutouts(
      Contains(c, "rototract") && arc,
      Contains(c, "fan cutout"),
      Contains(c, "pemstud"),
      Contains(c, "device panel cutout"));
    Summary(typ, arc, HeightFromCorpus(c), bucket, handle, cutouts, if arc then 12 else 14)
  }

  // ---------------------------------------------------------------------
  // What the summary depends on.

  /** The first message (the system prompt) never changes the summary. */
  lemma FirstMessageIgnored(m: Message, m': Message, rest: seq<Message>)
    ensures ExtractSummaryFromConversation([m] + rest) == ExtractSummaryFromConversation([m'] + rest)
  {
    assert Later([m] + rest) == rest == Later([m'] + rest);
  }

  /** A conversation that never says "inch" gets the default height. */
  lemma HeightWithoutInch(c: string)
    requires !Contains(c, "inch")
    ensures HeightFromCorpus(c) == DefaultHeight
  {
    NoInchNoMatches(c, 0);
  }

  lemma {:induction false} NoInchNoMatches(c: string, i: nat)
    requires i <= |c| && !Contains(c, "inch")
    decreases |c| - i
    ensures InchMatches(c, i) == []
  {
    if i < |c| {
      if IsDigit(c[i]) {
        InchAtIsLiteral(c, RunEnd(c, RunEnd(c, i, DigitClass), SpaceClass));
      }
      InchMatchesMiss(c, i);
      NoInchNoMatches(c, i + 1);
    }
  }

  /** A last turn that says "N inch" decides the height, whatever was said
      before: the height is read from the last match. */
  lemma AppendTurnHeight(ms: seq<Message>, role: string, n: nat)
    requires |ms| > 0
    ensures ExtractSummaryFromConversation(ms + [Message(role, DecimalString(n) + " inch")]).height == n
  {
    TurnCorpusHeight(ms, role, n);
  }

  /** The corpus-level half of `AppendTurnHeight`. */
  lemma TurnCorpusHeight(ms: seq<Message>, role: string, n: nat)
    requires |ms| > 0
    ensures HeightFromCorpus(Corpus(ms + [Message(role, DecimalString(n) + " inch")])) == n
  {
    var d := DecimalString(n);
    var p := AppendedCorpus(ms, role, d);
    EndingTurnHeight(p, d);
    DecimalRoundTrip(n);
  }

  /** A text that ends with the turn `d + " inch"` after a space, or that is
      only that turn, has height `d`. */
  lemma EndingTurnHeight(p: string, d: string)
    requires |d| > 0 && AllDigits(d)
    requires p == [] || p[|p| - 1] == ' '
    ensures HeightFromCorpus(p + d + " inch") == DecimalValue(d)
  {
    var s := p + d + " inch";
    TurnShape(s, p, d);
    TurnHeight(s, |p|, d);
  }

  /** The corpus after one more turn `d + " inch"`, for digits `d`: what came
      before, then a space unless nothing came before, then the turn. */
  lemma AppendedCorpus(ms: seq<Message>, role: string, d: string) returns (p: string)
    requires |ms| > 0 && AllDigits(d)
    ensures p == [] || p[|p| - 1] == ' '
    ensures Corpus(ms + [Message(role, d + " inch")]) == p + d + " inch"
  {
    var c := d + " inch";
    var cs := LaterContentsAppend(ms, Message(role, c));
    TurnIsLower(d);
    p := LowerJoinAppend(cs, c);
    assert p + c == p + d + " inch";
  }

  /** The contents read after appending message `m`. */
  lemma LaterContentsAppend(ms: seq<Message>, m: Message) returns (cs: seq<string>)
    requires |ms| > 0
    ensures cs == Contents(Later(ms))
    ensures Contents(Later(ms + [m])) == cs + [m.content]
  {
    cs := Contents(Later(ms));
    assert Later(ms + [m]) == Later(ms) + [m];
  }

  /** A turn made of digits, a space and "inch" is already lower case. */
  lemma TurnIsLower(d: string)
    requires AllDigits(d)
    ensures Lower(d + " inch") == d + " inch"
  {
    var c := d + " inch";
    forall i | 0 <= i < |c|
      ensures !IsUpper(c[i])
    {
      if i < |d| {
        assert c[i] == d[i];
      }
    }
    LowerKeepsLower(c);
  }

  /** Lower-casing the join after appending a lower-case `c`. */
  lemma LowerJoinAppend(cs: seq<string>, c: string) returns (p: string)
    requires Lower(c) == c
    ensures p == [] || p[|p| - 1] == ' '
    ensures Lower(JoinSpace(cs + [c])) == p + c
  {
    JoinSpaceAppend(cs, c);
    if cs == [] {
      p := "";
    } else {
      var j := JoinSpace(cs);
      p := Lower(j) + " ";
      LowerAppend(j + " ", c);
      LowerAppend(j, " ");
      assert Lower(" ") == " ";
    }
  }

  /** The text ends with the turn `d + " inch"`, which starts at `q` after a
      space or at the very start. */
  predicate EndsWithTurn(s: string, q: nat, d: string) {
    && |d| > 0 && AllDigits(d) && q + |d| + 5 == |s|
    && s[q..q + |d|] == d
    && s[q + |d|] == ' ' && StartsAt(s, q + |d| + 1, "inch")
    && (q == 0 || s[q - 1] == ' ')
  }

  /** When the text ends with `d + " inch"` after a space or at the very
      start, the height is `d`. */
  lemma TurnHeight(s: string, q: nat, d: string)
    requires EndsWithTurn(s, q, d)
    ensures HeightFromCorpus(s) == DecimalValue(d)
  {
    InchAtTurn(s, q, d);
    assert IsDigit(s[q]) by {
      assert s[q..q + |d|][0] == s[q];
    }
    LastMatchOfTurn(s, q, q + |d|);
  }

  /** The height is read from the match found last. */
  lemma LastMatchOfTurn(s: string, q: nat, e: nat)
    requires q < e && e + 5 == |s| && IsDigit(s[q])
    requires InchMatchAt(s, q) == Some(InchMatch(Span(q, e), |s|))
    requires q == 0 || s[q - 1] == ' '
    ensures HeightFromCorpus(s) == DecimalValue(s[q..e])
  {
    InchLast(s, q, e, 0);
  }

  /** Where the parts of `p + d + " inch"` lie. */
  lemma TurnShape(s: string, p: string, d: string)
    requires |d| > 0 && AllDigits(d)
    requires p == [] || p[|p| - 1] == ' '
    requires s == p + d + " inch"
    ensures EndsWithTurn(s, |p|, d)
  {
    MiddleOf(p, d, " inch");
    assert s[|p| + |d|..] == " inch";
  }

  /** The scan from any point up to `q` ends with the match at `q`, when
      that match runs to the end of the text and follows a space or the very
      start. */
  lemma {:induction false} InchLast(s: string, q: nat, e: nat, i: nat)
    requires q < e && e + 5 == |s| && IsDigit(s[q])
    requires InchMatchAt(s, q) == Some(InchMatch(Span(q, e), |s|))
    requires q == 0 || s[q - 1] == ' '
    requires i <= q
    decreases q - i, 1
    ensures EndsWithGroup(InchMatches(s, i), Span(q, e))
  {
    if i == q {
      InchLastAtTurn(s, q, e);
    } else if InchMatchAt(s, i).None? {
      InchLastAfterMiss(s, q, e, i);
    } else {
      InchLastAfterMatch(s, q, e, i);
    }
  }

  /** The step of `InchLast` past a position before `q` where nothing matches. */
  lemma {:induction false} InchLastAfterMiss(s: string, q: nat, e: nat, i: nat)
    requires q < e && e + 5 == |s| && IsDigit(s[q])
    requires InchMatchAt(s, q) == Some(InchMatch(Span(q, e), |s|))
    requires q == 0 || s[q - 1] == ' '
    requires i < q && InchMatchAt(s, i).None?
    decreases q - i, 0
    ensures EndsWithGroup(InchMatches(s, i), Span(q, e))
  {
    InchMatchesMiss(s, i);
    InchLast(s, q, e, i + 1);
  }

  /** The scan from `q` finds the one match there. */
  lemma InchLastAtTurn(s: string, q: nat, e: nat)
    requires q < e && e + 5 == |s|
    requires InchMatchAt(s, q) == Some(InchMatch(Span(q, e), |s|))
    ensures InchMatches(s, q) == [Span(q, e)]
  {
    assert InchMatches(s, |s|) == [];
  }

  /** The step of `InchLast` past a match that starts before `q`. */
  lemma {:induction false} InchLastAfterMatch(s: string, q: nat, e: nat, i: nat)
    requires q < e && e + 5 == |s| && IsDigit(s[q])
    requires InchMatchAt(s, q) == Some(InchMatch(Span(q, e), |s|))
    requires q == 0 || s[q - 1] == ' '
    requires i < q && InchMatchAt(s, i).Some?
    decreases q - i, 0
    ensures EndsWithGroup(InchMatches(s, i), Span(q, e))
  {
    var m := InchMatchAt(s, i).value;
    InchEndsBeforeTurn(s, q, i);
    InchLast(s, q, e, m.end);
    InchMatchesHit(s, i, m);
    LastOfCons(m.group, InchMatches(s, m.end), Span(q, e));
  }

  /** `r` is not empty and `g` is its last group. */
  predicate EndsWithGroup(r: seq<Span>, g: Span) {
    |r| > 0 && r[|r| - 1] == g
  }

  lemma LastOfCons(a: Span, r: seq<Span>, g: Span)
    requires EndsWithGroup(r, g)
    ensures EndsWithGroup([a] + r, g)
  {
  }

  /** The match at the start of `d + " inch"` captures `d` and runs to the end. */
  lemma InchAtTurn(s: string, q: nat, d: string)
    requires EndsWithTurn(s, q, d)
    ensures InchMatchAt(s, q) == Some(InchMatch(Span(q, q + |d|), |s|))
  {
    var e := q + |d|;
    InchAtIsLiteral(s, e + 1);
    forall y | q <= y < e
      ensures IsDigit(s[y])
    {
      assert s[q..q + |d|][y - q] == s[y];
    }
    RunEndAt(s, q, e, DigitClass);
    RunEndAt(s, e, e + 1, SpaceClass);
  }

  /** A match that starts before a space at `q - 1` followed by a digit at `q`
      ends before `q`: neither its digits, nor its spaces, nor its "inch"
      can run past that space. */
  lemma InchEndsBeforeTurn(s: string, q: nat, i: nat)
    requires i < q < |s| && s[q - 1] == ' ' && IsDigit(s[q])
    requires InchMatchAt(s, i).Some?
    ensures InchMatchAt(s, i).value.end <= q
  {
    var e := RunEnd(s, i, DigitClass);
    var k := RunEnd(s, e, SpaceClass);
    assert e <= q - 1;
    assert k <= q;
    InchAtIsLiteral(s, k);
    SpaceFreeOccurrence(s, k, "inch", q - 1);
  }

  /** Each string of the list sits whole inside the join. */
  lemma {:induction false} JoinSpaceHolds(cs: seq<string>, k: nat) returns (a: string, b: string)
    requires k < |cs|
    decreases |cs|
    ensures JoinSpace(cs) == a + cs[k] + b
  {
    if |cs| == 1 {
      a, b := "", "";
    } else if k == |cs| - 1 {
      a, b := JoinSpace(cs[..|cs| - 1]) + " ", "";
    } else {
      var b';
      a, b' := JoinSpaceHolds(cs[..|cs| - 1], k);
      b := b' + " " + cs[|cs| - 1];
    }
  }

  /** A word that any later turn contains, in whatever case, is in the corpus. */
  lemma MentionReachesCorpus(ms: seq<Message>, k: nat, w: string)
    requires 1 <= k < |ms| && Contains(Lower(ms[k].content), w)
    ensures Contains(Corpus(ms), w)
  {
    var cs := Contents(Later(ms));
    assert cs[k - 1] == ms[k].content;
    var a, b := JoinSpaceHolds(cs, k - 1);
    LowerAppend(a + ms[k].content, b);
    LowerAppend(a, ms[k].content);
    ContainsInMiddle(Lower(a), Lower(ms[k].content), Lower(b), w);
  }

  /** One later turn is enough to fix the keyword-tested fields, whatever
      the other turns say: "flashgard" makes the door an arc-rated 12 gauge
      FlashGard, "drive" a drive bucket, "up-down handle" an up-down handle,
      and the cutout phrases their cutouts. */
  lemma LaterMentionDecides(ms: seq<Message>, k: nat)
    requires 1 <= k < |ms|
    ensures var c := Lower(ms[k].content); var r := ExtractSummaryFromConversation(ms);
      && (Contains(c, "flashgard") ==>
            r.typ == FreedomPlusFlashGard && r.arcRated && r.thickness == 12)
      && (Contains(c, "drive") ==> r.bucket == DriveBucket)
      && (Contains(c, "up-down handle") ==> r.handle == UpDownHandle)
      && (Contains(c, "up down handle") ==> r.handle == UpDownHandle)
      && (Contains(c, "fan cutout") ==> r.cutouts.fan)
      && (Contains(c, "pemstud") ==> r.cutouts.pemstud)
      && (Contains(c, "device panel cutout") ==> r.cutouts.devicePanel)
  {
    var c := Lower(ms[k].content);
    if Contains(c, "flashgard") { MentionReachesCorpus(ms, k, "flashgard"); }
    if Contains(c, "drive") { MentionReachesCorpus(ms, k, "drive"); }
    if Contains(c, "up-down handle") { MentionReachesCorpus(ms, k, "up-down handle"); }
    if Contains(c, "up down handle") { MentionReachesCorpus(ms, k, "up down handle"); }
    if Contains(c, "fan cutout") { MentionReachesCorpus(ms, k, "fan cutout"); }
    if Contains(c, "pemstud") { MentionReachesCorpus(ms, k, "pemstud"); }
    if Contains(c, "device panel cutout") { MentionReachesCorpus(ms, k, "device panel cutout"); }
  }

  /** Some message after the first contains `w` once lower-cased. */
  predicate Mentioned(ms: seq<Message>, w: string) {
    exists k :: 1 <= k < |ms| && Contains(Lower(ms[k].content), w)
  }

  /** A join of strings none of which contains a space-free word does not
      contain it either. */
  lemma {:induction false} JoinLacksWord(cs: seq<string>, w: string)
    requires |w| > 0 && SpaceFree(w)
    requires forall k :: 0 <= k < |cs| ==> !Contains(Lower(cs[k]), w)
    decreases |cs|
    ensures !Contains(Lower(JoinSpace(cs)), w)
  {
    if |cs| > 1 {
      var init := cs[..|cs| - 1];
      var c := cs[|cs| - 1];
      assert forall k :: 0 <= k < |init| ==> init[k] == cs[k];
      JoinLacksWord(init, w);
      var j := JoinSpace(init);
      LowerAppend(j + " ", c);
      LowerAppend(j, " ");
      assert Lower(" ") == " ";
      var s := Lower(j) + " " + Lower(c);
      assert Lower(JoinSpace(cs)) == s;
      forall i: nat | i <= |s|
        ensures !StartsAt(s, i, w)
      {
        OccurrenceBesideSpace(Lower(j), Lower(c), w, i);
      }
    }
  }

  /** A space-free word is in the corpus exactly when some later message
      mentions it: joining with spaces cannot make one up. */
  lemma WordInTurns(ms: seq<Message>, w: string)
    requires |w| > 0 && SpaceFree(w)
    ensures Contains(Corpus(ms), w) <==> Mentioned(ms, w)
  {
    if Mentioned(ms, w) {
      var k :| 1 <= k < |ms| && Contains(Lower(ms[k].content), w);
      MentionReachesCorpus(ms, k, w);
    } else {
      var cs := Contents(Later(ms));
      forall k | 0 <= k < |cs|
        ensures !Contains(Lower(cs[k]), w)
      {
        assert cs[k] == ms[k + 1].content;
      }
      JoinLacksWord(cs, w);
    }
  }

  /** The fields decided by a space-free keyword are set exactly when some
      later message mentions it: FlashGard, arc rated and 12 gauge for
      "flashgard" (otherwise Freedom Plus, not arc rated, 14 gauge), a drive
      bucket for "drive", the pemstud cutout for "pemstud", and the
      RotoTract cutout for "rototract" together with "flashgard". */
  lemma KeywordTurnsDecide(ms: seq<Message>)
    ensures var r := ExtractSummaryFromConversation(ms);
      && (r.typ == FreedomPlusFlashGard <==> Mentioned(ms, "flashgard"))
      && (r.arcRated <==> Mentioned(ms, "flashgard"))
      && (r.thickness == (if Mentioned(ms, "flashgard") then 12 else 14))
      && (r.bucket == DriveBucket <==> Mentioned(ms, "drive"))
      && (r.cutouts.pemstud <==> Mentioned(ms, "pemstud"))
      && (r.cutouts.rotoTract <==> Mentioned(ms, "rototract") && Mentioned(ms, "flashgard"))
  {
    WordInTurns(ms, "flashgard");
    WordInTurns(ms, "drive");
    WordInTurns(ms, "pemstud");
    WordInTurns(ms, "rototract");
  }

  /** Before the user has said anything, the summary is all defaults: Freedom
      Plus, not arc rated, 48 inches, starter bucket, rotary handle, no
      cutouts, 14 gauge. */
  lemma NoTurnDefaults(ms: seq<Message>)
    requires |ms| <= 1
    ensures ExtractSummaryFromConversation(ms) == Summary(FreedomPlus, false, DefaultHeight,
      StarterBucket, RotaryHandle, ConvCutouts(false, false, false, false), 14)
  {
    assert Corpus(ms) == [];
  }

  /** A keyword phrase with a space in it can be made up by the join: one
      message saying "up-down" and the next saying "handle" give an up-down
      handle, although no message contains "up-down handle". */
  lemma PhraseAcrossTurns()
    ensures var ms := [Message("system", ""), Message("user", "up-down"), Message("user", "handle")];
      && !Mentioned(ms, "up-down handle")
      && ExtractSummaryFromConversation(ms).handle == UpDownHandle
  {
    var ms := [Message("system", ""), Message("user", "up-down"), Message("user", "handle")];
    SplitPhraseCorpus(ms);
    ShortTurnsLackPhrase(ms);
    assert StartsAt("up-down handle", 0, "up-down handle");
  }

  lemma SplitPhraseCorpus(ms: seq<Message>)
    requires ms == [Message("system", ""), Message("user", "up-down"), Message("user", "handle")]
    ensures Corpus(ms) == "up-down handle"
  {
    assert Contents(Later(ms)) == ["up-down", "handle"];
    assert JoinSpace(["up-down", "handle"]) == "up-down handle";
    LowerKeepsLower("up-down handle");
  }

  /** Messages shorter than a phrase cannot mention it. */
  lemma ShortTurnsLackPhrase(ms: seq<Message>)
    requires ms == [Message("system", ""), Message("user", "up-down"), Message("user", "handle")]
    ensures !Mentioned(ms, "up-down handle")
  {
    forall k | 1 <= k < |ms|
      ensures !Contains(Lower(ms[k].content), "up-down handle")
    {
      assert |ms[k].content| < |"up-down handle"|;
    }
  }

  /** The bucket test is a bare substring test: a conversation that only
      mentions "drive" to rule it out still gets a drive bucket. */
  lemma NegatedDriveStillDrive()
    ensures ExtractSummaryFromConversation(
      [Message("system", ""), Message("user", "starter bucket, no drive")]).bucket == DriveBucket
  {
    var ms := [Message("system", ""), Message("user", "starter bucket, no drive")];
    assert Contents(Later(ms)) == ["starter bucket, no drive"];
    LowerKeepsLower("starter bucket, no drive");
    assert StartsAt("starter bucket, no drive", 19, "drive");
  }
}

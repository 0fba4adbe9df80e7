/**
 * Ordered rule lists: the patterns of one field are tried in list order and
 * the first one that matches anywhere in the text decides the field.
 */
module Rules {
  import opened Wrappers
  import opened Text
  import opened Patterns
  import opened Priority

  /** The winning rule: its position in the list and its leftmost match. */
  datatype Hit = Hit(index: nat, m: Match)

  /** The leftmost match of every rule, in rule order. */
  function Searches(ps: seq<Pattern>, s: string): (t: seq<Option<Match>>)
    ensures |t| == |ps|
    ensures forall j :: 0 <= j < |ps| ==> t[j] == Search(ps[j], s)
  {
    seq(|ps|, j requires 0 <= j < |ps| => Search(ps[j], s))
  }

  /** The first rule of `ps` whose pattern matches `s`, with that match;
      None exactly when no rule matches. */
  function FirstHit(ps: seq<Pattern>, s: string): (r: Option<Hit>)
    ensures r.None? <==> forall j :: 0 <= j < |ps| ==> Search(ps[j], s).None?
    ensures r.Some? ==> r.value.index < |ps| && Search(ps[r.value.index], s) == Some(r.value.m)
    ensures r.Some? ==> forall j :: 0 <= j < r.value.index ==> Search(ps[j], s).None?
    ensures r.Some? ==> SpanIn(r.value.m.group, s)
    ensures r.Some? && ps[r.value.index].Numeric() ==> AllDigits(Captured(s, r.value.m.group))
    ensures r.Some? && !ps[r.value.index].Numeric() ==>
      GroupEnd(s, r.value.m.group.start, ps[r.value.index].Words()) == Some(r.value.m.group.end)
  {
    match FirstSome(Searches(ps, s), 0)
    case None => None
    case Some(f) => Some(Hit(f.index, f.value))
  }

  /** `match.group(1)` of the winning rule. */
  function HitText(s: string, h: Hit): string
    requires SpanIn(h.m.group, s)
  {
    Captured(s, h.m.group)
  }

  /** A rule that matches after rules that all fail is the winning rule. */
  lemma FirstHitAt(ps: seq<Pattern>, s: string, k: nat)
    requires k < |ps| && Search(ps[k], s).Some?
    requires forall j :: 0 <= j < k ==> Search(ps[j], s).None?
    ensures FirstHit(ps, s) == Some(Hit(k, Search(ps[k], s).value))
  {
    var t := Searches(ps, s);
    FirstSomeAt(t, 0, k);
  }

  /** A rule that matches makes some rule, this one or an earlier one, win. */
  lemma FirstHitSome(ps: seq<Pattern>, s: string, k: nat)
    requires k < |ps| && Search(ps[k], s).Some?
    ensures FirstHit(ps, s).Some? && FirstHit(ps, s).value.index <= k
  {
  }

  /** When no rule matches there is no winning rule. */
  lemma FirstHitNone(ps: seq<Pattern>, s: string)
    requires forall j :: 0 <= j < |ps| ==> Search(ps[j], s).None?
    ensures FirstHit(ps, s) == None
  {
  }

  /** The loop `for pattern in patterns: match = re.search(pattern, text);
      if match: … break`, returning the rule that broke out of it. */
  method FindFirst(ps: seq<Pattern>, s: string) returns (hit: Option<Hit>)
    ensures hit == FirstHit(ps, s)
  {
    ghost var t := Searches(ps, s);
    var k := 0;
    while k < |ps|
      invariant 0 <= k <= |ps|
      invariant forall j :: 0 <= j < k ==> t[j].None?
    {
      var m := Search(ps[k], s);
      assert m == t[k];
      if m.Some? {
        FirstSomeAt(t, 0, k);
        return Some(Hit(k, m.value));
      }
      NoneExtend(t, k);
      k := k + 1;
    }
    FirstSomeNone(t, 0);
    return None;
  }
}

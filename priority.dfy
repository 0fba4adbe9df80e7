/** First-success selection over a list of attempts, shared by `re.search`
    (attempts at successive start positions) and by the ordered rule lists
    (attempts with successive patterns). */
module Priority {
  import opened Wrappers

  /** The attempt that succeeded first: its position and its value. */
  datatype Found<T> = Found(index: nat, value: T)

  /** The first successful attempt at position `i` or later. */
  function FirstSome<T>(t: seq<Option<T>>, i: nat): (r: Option<Found<T>>)
    requires i <= |t|
    decreases |t| - i
    ensures r.None? <==> forall j :: i <= j < |t| ==> t[j].None?
    ensures r.Some? ==> i <= r.value.index < |t| && t[r.value.index] == Some(r.value.value)
    ensures r.Some? ==> forall j :: i <= j < r.value.index ==> t[j].None?
  {
    if i == |t| then None
    else match t[i]
      case Some(v) => Some(Found(i, v))
      case None => FirstSome(t, i + 1)
  }

  /** An attempt that succeeds after attempts that all fail is the first success. */
  lemma FirstSomeAt<T>(t: seq<Option<T>>, i: nat, k: nat)
    requires i <= k < |t| && t[k].Some?
    requires forall j :: i <= j < k ==> t[j].None?
    ensures FirstSome(t, i) == Some(Found(k, t[k].value))
  {
  }

  /** When every attempt fails there is no first success. */
  lemma FirstSomeNone<T>(t: seq<Option<T>>, i: nat)
    requires i <= |t|
    requires forall j :: i <= j < |t| ==> t[j].None?
    ensures FirstSome(t, i) == None
  {
  }

  /** One more failed attempt extends a run of failures. */
  lemma NoneExtend<T>(t: seq<Option<T>>, k: nat)
    requires k < |t| && t[k].None?
    requires forall j :: 0 <= j < k ==> t[j].None?
    ensures forall j :: 0 <= j < k + 1 ==> t[j].None?
  {
  }
}

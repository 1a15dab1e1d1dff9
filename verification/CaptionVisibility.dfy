/**
 The watermark that keeps the caption's visibility in step with the page
 (cmd/desktop/caption_visibility.go:13-44).

 An event is checked when it arrives; the update it asks for runs later on the UI thread, in
 any order.  Of floating point only the comparisons matter, so finite numbers are reals.
 */
module CaptionVisibility {
  import opened Floats
  import opened Wrappers

  datatype Field = Missing | Bool(truth: bool) | Number(number: Float) | Other

  datatype Data = NotAMap | Fields(hidden: Field, page: Field, sequence: Field)

  datatype Event = Event(sender: string, data: Data)

  datatype Update = Update(page: real, sequence: real, hidden: bool)

  const MAX_SAFE_INTEGER := 9007199254740991.0

  predicate ValidPage(f: Field) {
    f.Number? && f.number.Finite? && f.number.value > 0.0
  }

  predicate ValidSequence(f: Field) {
    && f.Number? && f.number.Finite?
    && 1.0 <= f.number.value <= MAX_SAFE_INTEGER
    && f.number.value.Floor as real == f.number.value
  }

  /** The update an event queues, if any. */
  function Queued(e: Event): Option<Update> {
    if e.sender == "main" && e.data.Fields? && e.data.hidden.Bool? && ValidPage(e.data.page) && ValidSequence(e.data.sequence)
    then Some(Update(e.data.page.number.value, e.data.sequence.number.value, e.data.hidden.truth))
    else None
  }

  /** An update is queued exactly for an event of the main page that carries its visibility, page and sequence, both in range. */
  lemma QueuedIff(e: Event, u: Update)
    ensures Queued(e) == Some(u) <==>
            && e == Event("main", Fields(Bool(u.hidden), Number(Finite(u.page)), Number(Finite(u.sequence))))
            && 0.0 < u.page && 1.0 <= u.sequence <= 9007199254740991.0 && u.sequence.Floor as real == u.sequence
  {
  }

  predicate Valid(u: Update) {
    u.page > 0.0 && u.sequence >= 1.0
  }

  // ---- Keys, in lexicographic order ----

  predicate Below(a: Update, b: Update) {
    a.page < b.page || (a.page == b.page && a.sequence < b.sequence)
  }

  predicate SameKey(a: Update, b: Update) {
    a.page == b.page && a.sequence == b.sequence
  }

  predicate Greatest(u: Update, s: seq<Update>) {
    u in s && forall w | w in s :: !Below(u, w)
  }

  // ---- What running a sequence of updates comes to ----

  /** The updates that get applied when `s` runs on a new watermark: each one above all before it. */
  function Applied(s: seq<Update>): seq<Update> {
    if s == [] then []
    else
      var u, before := s[|s| - 1], Applied(s[..|s| - 1]);
      if Fresh(u, before) then before + [u] else before
  }

  predicate Fresh(u: Update, applied: seq<Update>) {
    if applied == [] then u.page > 0.0 || (u.page == 0.0 && u.sequence > 0.0) else Below(applied[|applied| - 1], u)
  }

  /** The applied keys only ever grow. */
  lemma {:induction false} AppliedIsIncreasing(s: seq<Update>)
    ensures forall i, j | 0 <= i < j < |Applied(s)| :: Below(Applied(s)[i], Applied(s)[j])
    decreases |s|
  {
    if s != [] {
      AppliedIsIncreasing(s[..|s| - 1]);
    }
  }

  /** The last update applied is the first of those with the greatest key. */
  lemma {:induction false} LastIsGreatest(s: seq<Update>)
    requires s != [] && forall u | u in s :: Valid(u)
    ensures Applied(s) != [] && Greatest(Applied(s)[|Applied(s)| - 1], s)
    decreases |s|
  {
    hide Below, Greatest;
    var front, last := s[..|s| - 1], s[|s| - 1];
    assert s == front + [last];
    assert last in s;
    if front == [] {
      OnlyIsGreatest(last);
      assert s == [last];
    } else {
      assert forall u | u in front :: u in s;
      LastIsGreatest(front);
      GreatestStep(front, Applied(front)[|Applied(front)| - 1], last);
    }
  }

  lemma OnlyIsGreatest(u: Update)
    ensures Greatest(u, [u])
  {
  }

  lemma GreatestStep(s: seq<Update>, g: Update, u: Update)
    requires Greatest(g, s)
    ensures Greatest(if Below(g, u) then u else g, s + [u])
  {
    var t := s + [u];
    assert t[|s|] == u && t[..|s|] == s;
    forall w | w in t
      ensures !Below(if Below(g, u) then u else g, w)
    {
      assert w in s || w == u;
    }
  }

  lemma {:induction false} FirstGreatestStays(u: Update, s: seq<Update>)
    requires Valid(u) && forall w | w in s :: Valid(w) && !Below(u, w)
    ensures Applied([u] + s) == [u]
    decreases |s|
  {
    if s == [] {
      assert ([u] + s)[..0] == [] && [u] + s == [u];
    } else {
      assert ([u] + s)[..|s|] == [u] + s[..|s| - 1];
      assert s[|s| - 1] in s;
      FirstGreatestStays(u, s[..|s| - 1]);
    }
  }

  /** What the caption shows after the updates ran: hidden or not, if any was applied. */
  function Final(s: seq<Update>): Option<bool> {
    if Applied(s) == [] then None else Some(Applied(s)[|Applied(s)| - 1].hidden)
  }

  /** The updates with the greatest key say the same. */
  ghost predicate GreatestAgree(s: seq<Update>) {
    forall u, w | Greatest(u, s) && Greatest(w, s) :: u.hidden == w.hidden
  }

  ghost predicate Converges(s: seq<Update>) {
    forall t | multiset(t) == multiset(s) :: Final(t) == Final(s)
  }

  lemma SameMembers(s: seq<Update>, t: seq<Update>)
    requires multiset(s) == multiset(t)
    ensures forall u :: u in s <==> u in t
  {
    assert forall u :: u in s <==> u in multiset(s);
    assert forall u :: u in t <==> u in multiset(t);
  }

  /** An order in which a chosen update comes first. */
  lemma MovedToFront(s: seq<Update>, u: Update) returns (rest: seq<Update>)
    requires u in s
    ensures multiset([u] + rest) == multiset(s) && forall w | w in rest :: w in s
  {
    var i :| 0 <= i < |s| && s[i] == u;
    rest := s[..i] + s[i + 1..];
    assert s == s[..i] + [u] + s[i + 1..];
  }

  lemma AgreedOrdersEndTheSame(s: seq<Update>, t: seq<Update>)
    requires (forall u | u in s :: Valid(u)) && GreatestAgree(s) && multiset(s) == multiset(t)
    ensures Final(s) == Final(t)
  {
    hide Applied, Valid, Below;
    SameMembers(s, t);
    if s == [] {
      assert |multiset(t)| == |t|;
    } else {
      assert s[0] in t;
      LastIsGreatest(s);
      LastIsGreatest(t);
      SameGreatest(Applied(t)[|Applied(t)| - 1], s, t);
    }
  }

  lemma SameGreatest(u: Update, s: seq<Update>, t: seq<Update>)
    requires forall w :: w in s <==> w in t
    ensures Greatest(u, s) == Greatest(u, t)
  {
  }

  /** Every order of the updates ends the same exactly when those with the greatest key agree. */
  lemma ConvergesIffGreatestAgree(s: seq<Update>)
    requires forall u | u in s :: Valid(u)
    ensures Converges(s) <==> GreatestAgree(s)
  {
    hide Final, Valid, Greatest;
    if GreatestAgree(s) {
      forall t | multiset(t) == multiset(s)
        ensures Final(t) == Final(s)
      {
        AgreedOrdersEndTheSame(s, t);
      }
    }
    if Converges(s) {
      forall u, w | Greatest(u, s) && Greatest(w, s)
        ensures u.hidden == w.hidden
      {
        EndsWith(s, u);
        EndsWith(s, w);
      }
    }
  }

  lemma EndsWith(s: seq<Update>, u: Update)
    requires (forall w | w in s :: Valid(w)) && Greatest(u, s)
    ensures exists t :: multiset(t) == multiset(s) && Final(t) == Some(u.hidden)
  {
    var rest := MovedToFront(s, u);
    FirstGreatestStays(u, rest);
    var t := [u] + rest;
    assert multiset(t) == multiset(s) && Final(t) == Some(u.hidden);
  }

  /** Two orders of the same updates, in which the keys decide, end with the visibility of the greatest key. */
  lemma FinalIsThatOfGreatest(s: seq<Update>, u: Update)
    requires (forall w | w in s :: Valid(w)) && Greatest(u, s)
    requires forall v, w | v in s && w in s && SameKey(v, w) :: v.hidden == w.hidden
    ensures Final(s) == Some(u.hidden)
  {
    LastIsGreatest(s);
    assert SameKey(u, Applied(s)[|Applied(s)| - 1]);
  }

  /** Of any updates the one of the latest page, and there of the highest sequence, decides, whenever it runs. */
  lemma LatestDecides(s: seq<Update>, u: Update)
    requires u in s && (forall w | w in s :: Valid(w))
    requires forall w | w in s :: w == u || w.page < u.page || (w.page == u.page && w.sequence < u.sequence)
    ensures Final(s) == Some(u.hidden)
  {
    LastIsGreatest(s);
    assert Applied(s)[|Applied(s)| - 1] in s;
  }

  // ---- The code ----

  class Watermark {
    var page: real
    var sequence: real
    /** What the window was last told, and all updates run and applied so far. */
    var hidden: Option<bool>
    ghost var ran: seq<Update>

    ghost predicate Inv()
      reads this
    {
      var applied := Applied(ran);
      && hidden == Final(ran)
      && if applied == [] then page == 0.0 && sequence == 0.0
         else page == applied[|applied| - 1].page && sequence == applied[|applied| - 1].sequence
    }

    constructor ()
      ensures Inv() && ran == [] && hidden == None
    {
      page, sequence, hidden, ran := 0.0, 0.0, None, [];
    }

    /** The queued closure. */
    method Run(u: Update)
      requires Inv()
      modifies this
      ensures Inv() && ran == old(ran) + [u] && hidden == Final(ran)
    {
      assert (ran + [u])[..|ran|] == ran;
      ran := ran + [u];
      if u.page < page || (u.page == page && u.sequence <= sequence) {
        return;
      }
      page, sequence := u.page, u.sequence;
      hidden := Some(u.hidden);
    }
  }

  method Handle(event: Event) returns (queued: Option<Update>)
    ensures queued == Queued(event)
    ensures queued.Some? ==> Valid(queued.value)
  {
    if event.sender != "main" {
      return None;
    }
    if !event.data.Fields? || !event.data.hidden.Bool? {
      return None;
    }
    var page := event.data.page;
    if !page.Number? || page.number.NaN? || page.number.Infinite? || page.number.value <= 0.0 {
      return None;
    }
    var sequence := event.data.sequence;
    if !sequence.Number? || !sequence.number.Finite? {
      return None;
    }
    var n := sequence.number.value;
    if n < 1.0 || n > MAX_SAFE_INTEGER || n.Floor as real != n {
      return None;
    }
    queued := Some(Update(page.number.value, n, event.data.hidden.truth));
  }
}

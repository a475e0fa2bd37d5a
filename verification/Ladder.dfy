/** The ladder an oversized event climbs down: whole, with its key only, without
    data. What the publisher's attempts at one event come to, told apart from
    who makes them. */
module Ladder {
  import opened Streams

  datatype Form = Full | KeyOnly | Stripped

  /** What one attempt comes to. An attempt that fails otherwise is repeated and
      changes nothing. */
  datatype Act = Refused | Stored(ackArrives: bool) | Ended | Closed

  datatype Rung = At(form: Form) | Acked | GivenUp | ContextEnded | Stopped

  /** Where the event stands, and the form that was stored, if any. */
  datatype Climb = Climb(rung: Rung, stored: Option<Form>)

  const START := Climb(At(Full), None)

  function Below(form: Form): Rung {
    match form
    case Full => At(KeyOnly)
    case KeyOnly => At(Stripped)
    case Stripped => GivenUp
  }

  function Act1(fits: set<Form>, c: Climb, act: Act): Option<Climb> {
    if !c.rung.At? then None
    else
      var form := c.rung.form;
      match act
      case Refused => if form !in fits then Some(c.(rung := Below(form))) else None
      case Stored(acked) => if form in fits then Some(Climb(if acked then Acked else c.rung, Some(form))) else None
      case Ended => Some(c.(rung := ContextEnded))
      case Closed => Some(c.(rung := Stopped))
  }

  /** Where a sequence of attempts leads, if it is possible at all. */
  function Follow(fits: set<Form>, acts: seq<Act>): Option<Climb> {
    if acts == [] then Some(START)
    else
      var before := Follow(fits, acts[..|acts| - 1]);
      if before.None? then None else Act1(fits, before.value, acts[|acts| - 1])
  }

  lemma FollowOne(fits: set<Form>, acts: seq<Act>, act: Act)
    requires Follow(fits, acts).Some?
    ensures Follow(fits, acts + [act]) == Act1(fits, Follow(fits, acts).value, act)
  {
    assert (acts + [act])[..|acts|] == acts;
  }

  /** The first form that fits, if any. */
  function FirstFitting(fits: set<Form>): (r: Option<Form>)
    ensures r.Some? ==> r.value in fits && forall f <- fits :: NotAbove(f, r.value)
    ensures r.None? ==> fits == {}
  {
    if Full in fits then Some(Full)
    else if KeyOnly in fits then Some(KeyOnly)
    else if Stripped in fits then Some(Stripped)
    else
      NoForm(fits);
      None
  }

  /** At most one form is ever stored, the first that fits; an ack means it was;
      an event is given up only when none fits. */
  lemma {:induction false} OneFormAtMost(fits: set<Form>, acts: seq<Act>)
    requires Follow(fits, acts).Some?
    ensures var c := Follow(fits, acts).value;
      && (c.stored.Some? ==> c.stored == FirstFitting(fits))
      && (c.rung == Acked ==> c.stored.Some?) && (c.rung == GivenUp ==> fits == {})
      && (c.rung.At? ==> forall f <- fits :: NotAbove(f, c.rung.form))
  {
    if acts == [] {
    } else {
      OneFormAtMost(fits, acts[..|acts| - 1]);
      NoForm(fits);
    }
  }

  predicate NotAbove(f: Form, at: Form) {
    at == Full || f == Stripped || (at == KeyOnly && f == KeyOnly)
  }

  lemma NoForm(fits: set<Form>)
    ensures Full !in fits && KeyOnly !in fits && Stripped !in fits ==> fits == {}
  {
    if fits != {} {
      var f :| f in fits;
      match f
      case Full =>
      case KeyOnly =>
      case Stripped =>
    }
  }
}

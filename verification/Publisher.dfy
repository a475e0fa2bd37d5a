/** The publisher: one event at a time, in channel order, each until acked.

    The broker and the connection are an adversary: `script` lists what becomes
    of each publish attempt. The only other thing that decides an attempt is
    whether the form fits. The stream drops repeated message ids. */
module Publisher {
  import opened Cdc
  import opened Streams
  import L = Ladder
  import MySqlGate
  import SourceIds

  /** What the world does with one attempt. */
  datatype Attempt = Acked | AckLost | NotStored | ConnectionClosed | ContextEnded

  datatype Outcome = Done | TooLarge | Closed | Ended | Halted

  /** Snapshot rows have no source position; their id only dedupes retries. */
  function MessageIdOf(prefix: string, e: Event, unique: string): string {
    if e.sourceId == "" then unique else SourceIds.MessageId(prefix, e.sourceId)
  }

  /** An event with a place is stored under the prefix, a slash and that place,
      whatever fresh id was drawn; only one without takes the fresh id. */
  lemma StoredUnderItsPlace(prefix: string, e: Event, unique: string)
    ensures forall x: SourceIds.SourceId :: e.sourceId == SourceIds.Print(x) ==>
      MessageIdOf(prefix, e, unique) == prefix + "/" + SourceIds.Print(x)
    ensures e.sourceId == "" ==> MessageIdOf(prefix, e, unique) == unique
  {
    forall x: SourceIds.SourceId | e.sourceId == SourceIds.Print(x) ensures e.sourceId != "" {
      MySqlGate.PrefixTells(x);
    }
    hide SourceIds.Print;
  }

  /** The first form of the ladder that fits, if any. */
  function FittingForm(fits: Event -> bool, e: Event): Option<Event> {
    if fits(e) then Some(e)
    else if fits(e.Truncated()) then Some(e.Truncated())
    else if fits(e.Stripped()) then Some(e.Stripped())
    else None
  }

  function FormOf(e: Event, form: L.Form): Event {
    match form
    case Full => e
    case KeyOnly => e.Truncated()
    case Stripped => e.Stripped()
  }

  function FormsThatFit(fits: Event -> bool, e: Event): set<L.Form> {
    set f | f in {L.Full, L.KeyOnly, L.Stripped} && fits(FormOf(e, f))
  }

  lemma FormsAre(fits: Event -> bool, e: Event)
    ensures L.Full in FormsThatFit(fits, e) <==> fits(e)
    ensures L.KeyOnly in FormsThatFit(fits, e) <==> fits(e.Truncated())
    ensures L.Stripped in FormsThatFit(fits, e) <==> fits(e.Stripped())
  {
  }

  /** Where an outcome leaves the event on the ladder. */
  predicate Leaves(r: Outcome, at: L.Form, rung: L.Rung) {
    match r
    case Done => rung == L.Acked
    case TooLarge => rung == L.Below(at)
    case Closed => rung == L.Stopped
    case Ended => rung == L.ContextEnded
    case Halted => rung.At?
  }

  /** What the attempts stored is what the stream gained. */
  ghost predicate StreamAfter(before: seq<Message<Event>>, after: seq<Message<Event>>, id: string, e: Event, stored: Option<L.Form>) {
    after == if stored.None? then before else Store(before, Message(id, FormOf(e, stored.value)), true)
  }

  predicate Deliverable(fits: Event -> bool, e: Event) {
    IsPublishable(e.typ) && FittingForm(fits, e).Some?
  }

  /** The events of a channel that can be delivered at all, in order. */
  function Deliverables(fits: Event -> bool, ch: seq<Event>): seq<Event> {
    if ch == [] then []
    else
      var last := ch[|ch| - 1];
      Deliverables(fits, ch[..|ch| - 1]) + if Deliverable(fits, last) then [last] else []
  }

  /** All of a channel but the marks. */
  function Publishables(ch: seq<Event>): seq<Event> {
    if ch == [] then []
    else
      var last := ch[|ch| - 1];
      Publishables(ch[..|ch| - 1]) + if IsMark(last.typ) then [] else [last]
  }

  /** With the data-free form always fitting, nothing publishable is given up. */
  lemma {:induction false} StrippedFitsMeansAllDeliverable(fits: Event -> bool, ch: seq<Event>)
    requires forall e <- ch :: fits(e.Stripped())
    ensures Deliverables(fits, ch) == Publishables(ch)
  {
    if ch == [] {
    } else {
      StrippedFitsMeansAllDeliverable(fits, ch[..|ch| - 1]);
      assert ch[|ch| - 1] in ch;
    }
  }

  /** A message the publisher may store for some event of a channel. */
  ghost predicate FromChannel(prefix: string, fits: Event -> bool, ch: seq<Event>, unique: seq<string>, m: Message<Event>)
    requires |unique| == |ch|
  {
    exists i :: 0 <= i < |ch| && Deliverable(fits, ch[i])
      && m == Message(MessageIdOf(prefix, ch[i], unique[i]), FittingForm(fits, ch[i]).value)
  }

  /** At most one message is added, under this id and only when there was none
      under it; once reported, there is one. */
  ghost predicate StoredOnceUnder(id: string, before: seq<Message<Event>>, after: seq<Message<Event>>, reported: bool) {
    && (after == before || (id !in Ids(before) && |after| == |before| + 1 && before <= after && after[|before|].id == id))
    && (reported ==> id in Ids(after))
  }

  /** A change that fits in some form, at this place in its log. */
  ghost predicate HasPlace(fits: Event -> bool, e: Event, x: SourceIds.SourceId) {
    !IsMark(e.typ) && FittingForm(fits, e).Some? && e.sourceId == SourceIds.Print(x)
  }

  class NatsPublisher {
    const prefix: string
    const fits: Event -> bool
    var script: seq<Attempt>
    var ended: bool
    var stream: seq<Message<Event>>
    /** The events handed to the observers, in order. */
    var reported: seq<Event>

    constructor (prefix: string, fits: Event -> bool, script: seq<Attempt>, stream: seq<Message<Event>>)
      ensures this.prefix == prefix && this.fits == fits && this.script == script && this.stream == stream
      ensures !ended && reported == []
    {
      this.prefix, this.fits, this.script, this.stream := prefix, fits, script, stream;
      ended, reported := false, [];
    }

    /** Same id on every attempt; only an ack, a refusal for size, the end of
        the context or of the connection ends the loop. */
    method PublishWithRetry(form: Event, id: string, ghost e: Event, ghost at: L.Form, ghost before: seq<L.Act>)
      returns (r: Outcome, ghost acts: seq<L.Act>)
      requires form == FormOf(e, at)
      requires L.Follow(FormsThatFit(fits, e), before) == Some(L.Climb(L.At(at), None))
      modifies this`script, this`ended, this`stream
      ensures var climb := L.Follow(FormsThatFit(fits, e), acts);
        && climb.Some? && Leaves(r, at, climb.value.rung)
        && (climb.value.rung.At? ==> r == Halted || (r == TooLarge && climb.value.stored.None?))
        && StreamAfter(old(stream), stream, id, e, climb.value.stored)
      ensures |script| <= |old(script)|
      ensures old(ended) ==> ended && r == Ended && stream == old(stream)
      ensures stream == old(stream) || stream == Store(old(stream), Message(id, form), true)
      ensures r == Done ==> stream == Store(old(stream), Message(id, form), true)
      ensures r == TooLarge ==> !fits(form)
      ensures !fits(form) ==> r != Done && stream == old(stream)
      ensures ended ==> old(ended) || r == Ended
      ensures r == Ended ==> ended
    {
      acts := before;
      while true
        invariant |script| <= |old(script)|
        invariant ended == old(ended)
        invariant L.Follow(FormsThatFit(fits, e), acts).Some?
        invariant var climb := L.Follow(FormsThatFit(fits, e), acts).value;
          climb.rung == L.At(at) && (climb.stored == None || climb.stored == Some(at)) && StreamAfter(old(stream), stream, id, e, climb.stored)
        invariant stream == old(stream) || stream == Store(old(stream), Message(id, form), true)
        invariant old(ended) || !fits(form) ==> stream == old(stream)
        decreases |script|
      {
        if ended {
          L.FollowOne(FormsThatFit(fits, e), acts, L.Ended);
          return Ended, acts + [L.Ended];
        }
        if script == [] {
          return Halted, acts;
        }
        var attempt := script[0];
        script := script[1..];
        match attempt
        case Acked =>
          if !fits(form) {
            L.FollowOne(FormsThatFit(fits, e), acts, L.Refused);
            return TooLarge, acts + [L.Refused];
          }
          L.FollowOne(FormsThatFit(fits, e), acts, L.Stored(true));
          stream := Store(stream, Message(id, form), true);
          return Done, acts + [L.Stored(true)];
        case AckLost =>
          if !fits(form) {
            L.FollowOne(FormsThatFit(fits, e), acts, L.Refused);
            return TooLarge, acts + [L.Refused];
          }
          L.FollowOne(FormsThatFit(fits, e), acts, L.Stored(false));
          stream := Store(stream, Message(id, form), true);
          acts := acts + [L.Stored(false)];
        case NotStored =>
        case ConnectionClosed =>
          L.FollowOne(FormsThatFit(fits, e), acts, L.Closed);
          return Closed, acts + [L.Closed];
        case ContextEnded =>
          ended := true;
          L.FollowOne(FormsThatFit(fits, e), acts, L.Ended);
          return Ended, acts + [L.Ended];
      }
    }

    /** Key-only first, then no data at all, under the same id. */
    method SendTruncated(e: Event, id: string, ghost before: seq<L.Act>) returns (r: Outcome, ghost acts: seq<L.Act>)
      requires L.Follow(FormsThatFit(fits, e), before) == Some(L.Climb(L.At(L.KeyOnly), None))
      modifies this`script, this`ended, this`stream
      ensures var climb := L.Follow(FormsThatFit(fits, e), acts);
        && climb.Some? && Leaves(r, L.Stripped, climb.value.rung) && StreamAfter(old(stream), stream, id, e, climb.value.stored)
      ensures old(ended) ==> ended && r == Ended && stream == old(stream)
      ensures ended ==> old(ended) || r == Ended
      ensures r == Ended ==> ended
      ensures var form := if fits(e.Truncated()) then e.Truncated() else e.Stripped();
        && (stream == old(stream) || (fits(form) && stream == Store(old(stream), Message(id, form), true)))
        && (r == Done ==> fits(form) && stream == Store(old(stream), Message(id, form), true))
        && (r == TooLarge ==> !fits(form))
    {
      r, acts := PublishWithRetry(e.Truncated(), id, e, L.KeyOnly, before);
      if r == TooLarge {
        r, acts := PublishWithRetry(e.Stripped(), id, e, L.Stripped, acts);
      }
    }

    /** At most one message is stored, in the first form that fits, under the
        event's own id; the observers see the original event, and only once
        that message is stored. */
    method Publish(e: Event, unique: string) returns (r: Outcome, ghost acts: seq<L.Act>)
      modifies this
      ensures var climb := L.Follow(FormsThatFit(fits, e), acts);
        && climb.Some? && Leaves(r, L.Stripped, climb.value.rung)
        && StreamAfter(old(stream), stream, MessageIdOf(prefix, e, unique), e, climb.value.stored)
      ensures old(ended) ==> ended && r == Ended && stream == old(stream)
      ensures ended ==> old(ended) || r == Ended
      ensures r == Ended ==> ended
      ensures reported == if r == Done then old(reported) + [e] else old(reported)
      ensures r == TooLarge ==> FittingForm(fits, e).None?
      ensures r == Done ==> FittingForm(fits, e).Some?
      ensures FittingForm(fits, e).None? ==> stream == old(stream)
      ensures FittingForm(fits, e).Some? ==>
        var stored := Store(old(stream), Message(MessageIdOf(prefix, e, unique), FittingForm(fits, e).value), true);
        (stream == old(stream) || stream == stored) && (r == Done ==> stream == stored)
    {
      var id := MessageIdOf(prefix, e, unique);
      r, acts := PublishWithRetry(e, id, e, L.Full, []);
      if r == TooLarge {
        r, acts := SendTruncated(e, id, acts);
      }
      if r != Done {
        return;
      }
      reported := reported + [e];
    }

    /** False stops the loop: skipping ahead would confirm past this event. The
        attempts are a way down the ladder, and the event is reported exactly at
        its end with an ack. */
    method Deliver(e: Event, unique: string) returns (more: bool, r: Outcome, ghost acts: seq<L.Act>)
      modifies this
      ensures IsPublishable(e.typ) ==>
        var climb := L.Follow(FormsThatFit(fits, e), acts);
        && climb.Some? && Leaves(r, L.Stripped, climb.value.rung)
        && StreamAfter(old(stream), stream, MessageIdOf(prefix, e, unique), e, climb.value.stored)
        && reported == old(reported) + if climb.value.rung == L.Acked then [e] else []
      ensures old(ended) ==> ended && stream == old(stream) && reported == old(reported)
      ensures !IsPublishable(e.typ) ==> more && r == Done && stream == old(stream) && reported == old(reported) && ended == old(ended)
      ensures more && !ended ==> reported == old(reported) + if Deliverable(fits, e) then [e] else []
      ensures !more || ended ==> reported == old(reported)
      ensures reported != old(reported) ==> MessageIdOf(prefix, e, unique) in Ids(stream)
      ensures old(stream) <= stream && |stream| <= |old(stream)| + 1
      ensures stream != old(stream) ==>
        && Deliverable(fits, e) && MessageIdOf(prefix, e, unique) !in Ids(old(stream))
        && stream == old(stream) + [Message(MessageIdOf(prefix, e, unique), FittingForm(fits, e).value)]
      ensures IsMark(e.typ) ==> more && stream == old(stream) && reported == old(reported)
      ensures !IsMark(e.typ) && more && !ended ==>
        reported == old(reported) + if fits(e) || fits(e.Truncated()) || fits(e.Stripped()) then [e] else []
      ensures stream != old(stream) && |stream| == |old(stream)| + 1 ==>
        var form := stream[|old(stream)|].body;
        fits(form) && form == if fits(e) then e else if fits(e.Truncated()) then e.Truncated() else e.Stripped()
      ensures forall x: SourceIds.SourceId :: e.sourceId == SourceIds.Print(x) ==>
        StoredOnceUnder(prefix + "/" + SourceIds.Print(x), old(stream), stream, reported != old(reported))
      ensures e.sourceId == "" ==> StoredOnceUnder(unique, old(stream), stream, reported != old(reported))
    {
      StoredUnderItsPlace(prefix, e, unique);
      hide SourceIds.Print;
      if !IsPublishable(e.typ) {
        return true, Done, [];
      }
      r, acts := Publish(e, unique);
      more := r != Closed && r != Halted;
      if r == Done {
        StoredIsKnown(old(stream), Message(MessageIdOf(prefix, e, unique), FittingForm(fits, e).value));
      }
    }

    /** What the loop needs to know of one delivery. */
    method DeliverNext(e: Event, unique: string) returns (more: bool)
      modifies this
      ensures old(ended) ==> ended && reported == old(reported)
      ensures more && !ended ==> reported == old(reported) + if Deliverable(fits, e) then [e] else []
      ensures !more || ended ==> reported == old(reported)
      ensures reported != old(reported) ==> MessageIdOf(prefix, e, unique) in Ids(stream)
      ensures old(stream) <= stream && |stream| <= |old(stream)| + 1
      ensures stream != old(stream) ==>
        && Deliverable(fits, e) && MessageIdOf(prefix, e, unique) !in Ids(old(stream))
        && stream == old(stream) + [Message(MessageIdOf(prefix, e, unique), FittingForm(fits, e).value)]
    {
      var r;
      ghost var acts;
      more, r, acts := Deliver(e, unique);
    }

    /** Events in channel order; once the context has ended the loop may read on
        for a while, but nothing succeeds any more. Whatever happens, what was
        reported is exactly the deliverable part of a prefix of the channel,
        in order, and each of it is stored. */
    method PublishLoop(ch: seq<Event>, unique: seq<string>) returns (done: nat)
      requires |unique| == |ch|
      modifies this
      ensures done <= |ch|
      ensures reported == old(reported) + Deliverables(fits, ch[..done])
      ensures forall i :: 0 <= i < done && Deliverable(fits, ch[i]) ==> MessageIdOf(prefix, ch[i], unique[i]) in Ids(stream)
      ensures old(stream) <= stream && (DistinctIds(old(stream)) ==> DistinctIds(stream))
      ensures forall k :: |old(stream)| <= k < |stream| ==> FromChannel(prefix, fits, ch, unique, stream[k])
      ensures forall i, x: SourceIds.SourceId :: 0 <= i < done && HasPlace(fits, ch[i], x) ==>
        prefix + "/" + SourceIds.Print(x) in Ids(stream)
    {
      hide FittingForm, MessageIdOf, Deliverable, HasPlace, StoredOnceUnder, SourceIds.Print, IsMark, IsPublishable, Event.Truncated, Event.Stripped, L.Follow, Leaves, StreamAfter, FormsThatFit, DistinctIds;
      done := 0;
      var i := 0;
      while i < |ch|
        invariant 0 <= done <= i <= |ch|
        invariant done < i ==> ended
        invariant reported == old(reported) + Deliverables(fits, ch[..done])
        invariant forall j :: 0 <= j < done && Deliverable(fits, ch[j]) ==> MessageIdOf(prefix, ch[j], unique[j]) in Ids(stream)
        invariant old(stream) <= stream && (DistinctIds(old(stream)) ==> DistinctIds(stream))
        invariant forall k :: |old(stream)| <= k < |stream| ==> FromChannel(prefix, fits, ch, unique, stream[k])
      {
        if ended {
          if * {
            break;
          }
        }
        var known := stream;
        var more := DeliverNext(ch[i], unique[i]);
        GrowsByOne(known, stream);
        assert ch[..i + 1] == ch[..i] + [ch[i]] && ch[..i + 1][..i] == ch[..i];
        if stream != known {
          assert FromChannel(prefix, fits, ch, unique, stream[|known|]);
        }
        if !more {
          break;
        }
        i := i + 1;
        if !ended {
          done := i;
        }
      }
      PlacesAreStored(ch[..done], unique[..done]);
    }

    /** What is stored under its message id is stored under its place. */
    lemma PlacesAreStored(ch: seq<Event>, unique: seq<string>)
      requires |unique| == |ch|
      requires forall j :: 0 <= j < |ch| && Deliverable(fits, ch[j]) ==> MessageIdOf(prefix, ch[j], unique[j]) in Ids(stream)
      ensures forall i, x: SourceIds.SourceId :: 0 <= i < |ch| && HasPlace(fits, ch[i], x) ==>
        prefix + "/" + SourceIds.Print(x) in Ids(stream)
    {
      forall i, x: SourceIds.SourceId | 0 <= i < |ch| && HasPlace(fits, ch[i], x)
        ensures prefix + "/" + SourceIds.Print(x) in Ids(stream)
      {
        StoredUnderItsPlace(prefix, ch[i], unique[i]);
        hide SourceIds.Print, MessageIdOf, FittingForm;
        assert Deliverable(fits, ch[i]);
      }
    }
  }

  lemma StoredIsKnown(stream: seq<Message<Event>>, m: Message<Event>)
    ensures m.id in Ids(Store(stream, m, true))
  {
    if m.id !in Ids(stream) {
      assert m in stream + [m];
    }
  }

  lemma GrowsByOne(before: seq<Message<Event>>, after: seq<Message<Event>>)
    requires before <= after && |after| <= |before| + 1
    requires after != before ==> after[|before|].id !in Ids(before)
    ensures Ids(before) <= Ids(after)
    ensures DistinctIds(before) ==> DistinctIds(after)
  {
    forall id | id in Ids(before) ensures id in Ids(after) {
      var m :| m in before && m.id == id;
      assert m in after;
    }
    if DistinctIds(before) {
      forall j, k | 0 <= j < k < |after| ensures after[j].id != after[k].id {
        if k == |before| {
          assert before[j] in before && after[j] == before[j];
        }
      }
    }
  }

  /** A change delivered again, by this process or the next, whatever fresh ids
      were drawn: there is one message of it, and none is added once there is. */
  lemma DeliveredAgain(id: string, first: seq<Message<Event>>, second: seq<Message<Event>>, third: seq<Message<Event>>,
                       reported: bool, again: bool)
    requires StoredOnceUnder(id, first, second, reported) && StoredOnceUnder(id, second, third, again)
    ensures reported ==> third == second
    ensures |third| <= |first| + 1 && (reported || again ==> id in Ids(third))
    ensures DistinctIds(first) ==> DistinctIds(third)
  {
    hide Ids;
    if second != first {
      AddedIsKnown(first, second);
      GrowsByOne(first, second);
    }
    if third != second {
      GrowsByOne(second, third);
    }
  }

  lemma AddedIsKnown(before: seq<Message<Event>>, after: seq<Message<Event>>)
    requires |after| == |before| + 1
    ensures after[|before|].id in Ids(after)
  {
    assert after[|before|] in after;
  }

  // ---------------------------------------------------------------------------
  // Two gates on one bus

  /** What the Postgres gate makes of the reports: the highest sequence seen. */
  function PgAcked(reported: seq<Event>): nat {
    if reported == [] then 0 else Max(PgAcked(reported[..|reported| - 1]), reported[|reported| - 1].sequence)
  }

  /** What the MySQL gate makes of them: how many of its own it saw. */
  function MySqlAcked(reported: seq<Event>): nat {
    if reported == [] then 0
    else MySqlAcked(reported[..|reported| - 1]) + if MySqlGate.OwnEvent(reported[|reported| - 1]) then 1 else 0
  }

  /** The events a listener handed over, among those on the bus. */
  function PgOwn(ch: seq<Event>): seq<Event> {
    if ch == [] then []
    else PgOwn(ch[..|ch| - 1]) + if ch[|ch| - 1].sequence > 0 then [ch[|ch| - 1]] else []
  }

  /** Named by a place in a binlog. */
  ghost predicate FromBinlog(e: Event) {
    exists x: SourceIds.SourceId :: !x.PgChange? && e.sourceId == SourceIds.Print(x)
  }

  ghost function MySqlOwn(ch: seq<Event>): seq<Event> {
    if ch == [] then []
    else MySqlOwn(ch[..|ch| - 1]) + if FromBinlog(ch[|ch| - 1]) then [ch[|ch| - 1]] else []
  }

  /** An event on the bus has no name, or it is a change and its name is a place
      in one of the two logs. */
  ghost predicate NamedOrNot(e: Event) {
    e.sourceId == "" || (!IsMark(e.typ) && exists x: SourceIds.SourceId :: e.sourceId == SourceIds.Print(x))
  }

  /** Only Postgres changes are numbered, 1, 2, 3 and so on. */
  ghost predicate Numbered(ch: seq<Event>) {
    && (forall e <- ch :: NamedOrNot(e))
    && (forall e <- ch :: e.sequence > 0 ==> exists x: SourceIds.SourceId :: x.PgChange? && e.sourceId == SourceIds.Print(x))
    && forall i :: 0 <= i < |PgOwn(ch)| ==> PgOwn(ch)[i].sequence == i + 1
  }

  /** The gate's test tells the events a MySQL listener handed over. */
  lemma OwnIsFromBinlog(e: Event)
    requires NamedOrNot(e)
    ensures MySqlGate.OwnEvent(e) <==> FromBinlog(e)
  {
    MySqlGate.OwnIff(e);
    forall x: SourceIds.SourceId ensures SourceIds.Print(x) != "" {
      MySqlGate.PrefixTells(x);
    }
    hide SourceIds.Print, MySqlGate.OwnEvent;
  }

  lemma OwnAppend(ch: seq<Event>, e: Event)
    ensures PgOwn(ch + [e]) == PgOwn(ch) + if e.sequence > 0 then [e] else []
    ensures MySqlOwn(ch + [e]) == MySqlOwn(ch) + if FromBinlog(e) then [e] else []
  {
    assert (ch + [e])[..|ch|] == ch;
  }

  /** What a gate may count is a change, and so is published. */
  lemma OwnIsPublishable(e: Event)
    requires NamedOrNot(e)
    requires e.sequence > 0 ==> exists x: SourceIds.SourceId :: x.PgChange? && e.sourceId == SourceIds.Print(x)
    ensures e.sequence > 0 || FromBinlog(e) ==> !IsMark(e.typ)
  {
    forall x: SourceIds.SourceId ensures SourceIds.Print(x) != "" {
      MySqlGate.PrefixTells(x);
    }
    hide SourceIds.Print;
  }

  lemma {:induction false} PublishablesKeepOwn(ch: seq<Event>)
    requires forall e <- ch :: e.sequence > 0 || FromBinlog(e) ==> !IsMark(e.typ)
    ensures PgOwn(Publishables(ch)) == PgOwn(ch)
    ensures MySqlOwn(Publishables(ch)) == MySqlOwn(ch)
  {
    hide PgOwn, MySqlOwn, FromBinlog, IsMark;
    if ch != [] {
      var front, last := ch[..|ch| - 1], ch[|ch| - 1];
      PublishablesKeepOwn(front);
      assert last in ch && ch == front + [last];
      OwnAppend(front, last);
      OwnAppend(Publishables(front), last);
      if IsMark(last.typ) {
        assert Publishables(ch) == Publishables(front);
      }
    } else {
      assert Publishables(ch) == ch;
    }
  }

  lemma {:induction false} PgAckedIsCount(reported: seq<Event>)
    requires forall i :: 0 <= i < |PgOwn(reported)| ==> PgOwn(reported)[i].sequence == i + 1
    ensures PgAcked(reported) == |PgOwn(reported)|
  {
    if reported == [] {
    } else {
      var front := reported[..|reported| - 1];
      assert forall i :: 0 <= i < |PgOwn(front)| ==> PgOwn(front)[i] == PgOwn(reported)[i];
      PgAckedIsCount(front);
      if reported[|reported| - 1].sequence > 0 {
        assert PgOwn(reported)[|PgOwn(front)|] == reported[|reported| - 1];
      }
    }
  }

  lemma {:induction false} MySqlAckedIsCount(reported: seq<Event>)
    requires forall e <- reported :: NamedOrNot(e)
    ensures MySqlAcked(reported) == |MySqlOwn(reported)|
  {
    hide NamedOrNot, FromBinlog, MySqlGate.OwnEvent;
    if reported == [] {
    } else {
      var front, last := reported[..|reported| - 1], reported[|reported| - 1];
      assert last in reported;
      OwnIsFromBinlog(last);
      MySqlAckedIsCount(front);
    }
  }

  lemma {:induction false} PublishablesAreFrom(ch: seq<Event>)
    ensures forall e <- Publishables(ch) :: e in ch
  {
    if ch == [] {
    } else {
      PublishablesAreFrom(ch[..|ch| - 1]);
    }
  }

  lemma {:induction false} OwnOfPrefix(ch: seq<Event>, k: nat)
    requires k <= |ch|
    ensures PgOwn(ch[..k]) <= PgOwn(ch) && MySqlOwn(ch[..k]) <= MySqlOwn(ch)
    decreases |ch|
  {
    if k < |ch| {
      assert ch[..|ch| - 1][..k] == ch[..k];
      OwnOfPrefix(ch[..|ch| - 1], k);
    } else {
      assert ch[..k] == ch;
    }
  }

  /** With both listeners on one bus and the data-free form always fitting, each
      gate's ack count is the length of a prefix of its own hand-offs, the events
      numbered by the Postgres listener and those named by a place in a binlog:
      the publisher stopped somewhere in the channel, and each gate knows exactly
      how far its own events got. */
  lemma EachGateSeesAPrefixOfItsOwn(fits: Event -> bool, ch: seq<Event>, done: nat)
    requires done <= |ch| && Numbered(ch) && forall e <- ch :: fits(e.Stripped())
    ensures var reported := Deliverables(fits, ch[..done]);
      && PgAcked(reported) == |PgOwn(ch[..done])| && PgOwn(ch[..done]) <= PgOwn(ch)
      && MySqlAcked(reported) == |MySqlOwn(ch[..done])| && MySqlOwn(ch[..done]) <= MySqlOwn(ch)
  {
    hide NamedOrNot, FromBinlog, PgAcked, MySqlAcked, PgOwn, MySqlOwn, Publishables, Deliverables;
    var head := ch[..done];
    assert forall e <- head :: e in ch;
    forall e <- ch ensures e.sequence > 0 || FromBinlog(e) ==> !IsMark(e.typ) {
      OwnIsPublishable(e);
    }
    StrippedFitsMeansAllDeliverable(fits, head);
    OwnOfPrefix(ch, done);
    PublishablesKeepOwn(head);
    PgAckedIsCount(Publishables(head));
    PublishablesAreFrom(head);
    MySqlAckedIsCount(Publishables(head));
  }
}

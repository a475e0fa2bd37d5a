/** A transaction decodes the same way on every re-stream: whatever the parser
    knew before, and wherever in the session the relation messages fall, the same
    changes come out in the same order, and so under the same names. */
module PgReplay {
  import opened Streams
  import opened PgOutput
  import opened PgMessages
  import opened SourceIds

  type Message = PgMessages.Message

  // ---------------------------------------------------------------------------
  // A session's messages, read one after the other from their bytes

  /** What the parser knows after some messages. */
  function After(env: Settings, st: State, ms: seq<Message>): State {
    if ms == [] then st else Read(env, After(env, st, ms[..|ms| - 1]), Encode(ms[|ms| - 1])).state
  }

  /** What the listener emits for them, in its order. */
  function EmittedBy(env: Settings, st: State, ms: seq<Message>): seq<Event> {
    if ms == [] then []
    else
      var front := ms[..|ms| - 1];
      EmittedBy(env, st, front) + Emissions(Read(env, After(env, st, front), Encode(ms[|ms| - 1])))
  }

  /** The changes with the names emit gives them: the commit position of the
      transaction and their place in it. */
  function NamedBy(env: Settings, st: State, ms: seq<Message>): seq<(string, Event)> {
    var events := EmittedBy(env, st, ms);
    seq(|events|, i requires 0 <= i < |events| => (Print(PgChange(After(env, st, ms).finalLsn, i)), events[i]))
  }

  // ---------------------------------------------------------------------------
  // A transaction as the server sends it

  predicate IsChange(m: Message) {
    m.InsertMessage? || m.UpdateMessage? || m.DeleteMessage? || m.TruncateMessage?
  }

  function Uses(m: Message): seq<nat>
    requires IsChange(m)
  {
    if m.TruncateMessage? then m.ids else [m.id]
  }

  /** A change, and the relations it names as they were when it was made. */
  datatype Item = Item(message: Message, relations: map<nat, Relation>)

  /** The last description of a relation in a session, if there is one. */
  function Latest(env: Settings, ms: seq<Message>, id: nat): Option<Relation> {
    if ms == [] then None
    else
      var last := ms[|ms| - 1];
      if last.RelationMessage? && last.id == id then Some(Described(env, last)) else Latest(env, ms[..|ms| - 1], id)
  }

  /** The messages carry the changes, in order, with relation messages between
      them; every relation a change names was described earlier in the session,
      last of all as it was when the change was made. */
  ghost predicate Carries(env: Settings, before: seq<Message>, ms: seq<Message>, items: seq<Item>) {
    if ms == [] then items == []
    else
      var front, last := ms[..|ms| - 1], ms[|ms| - 1];
      if IsChange(last) then
        && items != [] && Announced(env, before + front, last, items[|items| - 1])
        && Carries(env, before, front, items[..|items| - 1])
      else last.RelationMessage? && Carries(env, before, front, items)
  }

  ghost predicate Announced(env: Settings, earlier: seq<Message>, m: Message, item: Item)
    requires IsChange(m)
  {
    item.message == m && forall id <- Uses(m) :: id in item.relations && Latest(env, earlier, id) == Some(item.relations[id])
  }

  /** What a change comes to, said without any parser state. */
  function Told(env: Settings, item: Item): seq<Event>
    requires IsChange(item.message)
  {
    var st := State(item.relations, 0, 0);
    if item.message.TruncateMessage? then
      var events := Truncations(env, st, item.message.options, item.message.ids);
      if events == [] then [] else if env.hasHandler then events[1..] + [events[0]] else [events[0]]
    else
      var event := Change(env, st, item.message);
      if event.Some? then [event.value] else []
  }

  predicate AllChanges(items: seq<Item>) {
    forall i :: 0 <= i < |items| ==> IsChange(items[i].message)
  }

  function ToldAll(env: Settings, items: seq<Item>): seq<Event>
    requires AllChanges(items)
  {
    if items == [] then [] else ToldAll(env, items[..|items| - 1]) + Told(env, items[|items| - 1])
  }

  ghost predicate AllWellFormed(ms: seq<Message>) {
    forall i :: 0 <= i < |ms| ==> WellFormed(ms[i])
  }

  // ---------------------------------------------------------------------------
  // Reading it

  /** Only a relation message changes what is known of relations. */
  lemma KeepsRelations(env: Settings, st: State, m: Message)
    requires WellFormed(m) && !m.RelationMessage?
    ensures Read(env, st, Encode(m)).state.relations == st.relations
    ensures IsChange(m) ==> Read(env, st, Encode(m)).state == st
  {
    hide Read, Encode, WellFormed, Change, Truncations;
    match m
    case BeginMessage(_, _, _) => BeginReads(env, st, m);
    case CommitMessage(_, _, _, _) => CommitReads(env, st, m);
    case TruncateMessage(_, _) => TruncateReads(env, st, m);
    case _ => ChangeReads(env, st, m);
  }

  /** The parser knows every relation as the session last described it, whatever
      it knew before. */
  lemma {:induction false} LatestIsKnown(env: Settings, st: State, ms: seq<Message>, id: nat)
    requires AllWellFormed(ms) && Latest(env, ms, id).Some?
    ensures id in After(env, st, ms).relations && After(env, st, ms).relations[id] == Latest(env, ms, id).value
    decreases |ms|
  {
    hide Read, Encode, WellFormed, Described;
    if ms == [] {
    } else {
      var front, last := ms[..|ms| - 1], ms[|ms| - 1];
      if last.RelationMessage? {
        RelationReads(env, After(env, st, front), last);
        if last.id != id {
          LatestIsKnown(env, st, front, id);
        }
      } else {
        KeepsRelations(env, After(env, st, front), last);
        LatestIsKnown(env, st, front, id);
      }
    }
  }

  lemma {:induction false} SameTruncations(env: Settings, st: State, st': State, options: nat, ids: seq<nat>)
    requires forall id <- ids :: id in st.relations && id in st'.relations && st.relations[id] == st'.relations[id]
    ensures Truncations(env, st, options, ids) == Truncations(env, st', options, ids)
    decreases |ids|
  {
    hide TruncateEvent, PassesFilter;
    if ids == [] {
    } else {
      assert ids[|ids| - 1] in ids && forall id <- ids[..|ids| - 1] :: id in ids;
      SameTruncations(env, st, st', options, ids[..|ids| - 1]);
    }
  }

  /** A change is emitted as it is told, from every state that knows the relations
      it names. */
  lemma EmittedAsTold(env: Settings, st: State, item: Item)
    requires IsChange(item.message) && WellFormed(item.message)
    requires forall id <- Uses(item.message) :: id in st.relations && id in item.relations && st.relations[id] == item.relations[id]
    ensures Emissions(Read(env, st, Encode(item.message))) == Told(env, item)
  {
    var m, st' := item.message, State(item.relations, 0, 0);
    hide Read, Encode, WellFormed, Truncations;
    if m.TruncateMessage? {
      TruncateReads(env, st, m);
      SameTruncations(env, st, st', m.options, m.ids);
    } else {
      ChangeReads(env, st, m);
      assert m.id in Uses(m);
    }
  }

  lemma {:induction false} AfterConcat(env: Settings, st: State, before: seq<Message>, ms: seq<Message>)
    ensures After(env, st, before + ms) == After(env, After(env, st, before), ms)
    decreases |ms|
  {
    hide Read, Encode;
    if ms == [] {
      assert before + ms == before;
    } else {
      assert (before + ms)[..|before + ms| - 1] == before + ms[..|ms| - 1];
      AfterConcat(env, st, before, ms[..|ms| - 1]);
    }
  }

  lemma {:induction false} CarriedAreChanges(env: Settings, before: seq<Message>, ms: seq<Message>, items: seq<Item>)
    requires Carries(env, before, ms, items)
    ensures AllChanges(items)
    decreases |ms|
  {
    if ms == [] {
    } else {
      var front := ms[..|ms| - 1];
      if IsChange(ms[|ms| - 1]) {
        CarriedAreChanges(env, before, front, items[..|items| - 1]);
      } else {
        CarriedAreChanges(env, before, front, items);
      }
    }
  }

  /** The changes come out as told, from any parser state before the session. */
  lemma {:induction false} EmitsTheChanges(env: Settings, st: State, before: seq<Message>, ms: seq<Message>, items: seq<Item>)
    requires AllWellFormed(before) && AllWellFormed(ms) && Carries(env, before, ms, items)
    ensures AllChanges(items) && EmittedBy(env, After(env, st, before), ms) == ToldAll(env, items)
    decreases |ms|
  {
    hide Read, Encode, WellFormed, Told, Latest;
    CarriedAreChanges(env, before, ms, items);
    if ms == [] {
    } else {
      var front, last := ms[..|ms| - 1], ms[|ms| - 1];
      var here := After(env, st, before + front);
      AfterConcat(env, st, before, front);
      if IsChange(last) {
        var item := items[|items| - 1];
        EmitsTheChanges(env, st, before, front, items[..|items| - 1]);
        forall id <- Uses(last) ensures id in here.relations && here.relations[id] == item.relations[id] {
          LatestIsKnown(env, st, before + front, id);
        }
        EmittedAsTold(env, here, item);
      } else {
        EmitsTheChanges(env, st, before, front, items);
        RelationReads(env, here, last);
        var events := EmittedBy(env, After(env, st, before), front);
        assert events + [] == events;
      }
    }
  }

  /** The hypotheses can be met: a session that describes a relation and then
      carries an insert into it. */
  lemma OneInsert(env: Settings, begin: Message, relation: Message, insert: Message)
    requires begin.BeginMessage? && relation.RelationMessage? && insert.InsertMessage? && insert.id == relation.id
    ensures Carries(env, [begin], [relation, insert], [Item(insert, map[insert.id := Described(env, relation)])])
  {
    var items := [Item(insert, map[insert.id := Described(env, relation)])];
    var ms, earlier := [relation, insert], [begin] + [relation];
    assert ms[..1] == [relation] && [relation][..0] == [] && items[..0] == [] && items[|items| - 1] == items[0];
    assert Carries(env, [begin], [relation], []);
    assert earlier[|earlier| - 1] == relation;
    assert Latest(env, earlier, insert.id) == Some(Described(env, relation));
    assert Announced(env, [begin] + ms[..1], insert, items[0]);
  }

  lemma {:induction false} KeepsFinalLsn(env: Settings, st: State, before: seq<Message>, ms: seq<Message>, items: seq<Item>)
    requires AllWellFormed(ms) && Carries(env, before, ms, items)
    ensures After(env, st, ms).finalLsn == st.finalLsn
    decreases |ms|
  {
    hide Read, Encode, WellFormed, Announced;
    if ms == [] {
    } else {
      var front, last := ms[..|ms| - 1], ms[|ms| - 1];
      if IsChange(last) {
        KeepsFinalLsn(env, st, before, front, items[..|items| - 1]);
        KeepsRelations(env, After(env, st, front), last);
      } else {
        KeepsFinalLsn(env, st, before, front, items);
        RelationReads(env, After(env, st, front), last);
      }
    }
  }

  /** What a transaction comes to: its changes as told, named by the commit
      position its BEGIN carries and their place. */
  function NamedItems(env: Settings, begin: Message, items: seq<Item>): seq<(string, Event)>
    requires begin.BeginMessage? && AllChanges(items)
  {
    var events := ToldAll(env, items);
    seq(|events|, i requires 0 <= i < |events| => (Print(PgChange(begin.finalLsn, i)), events[i]))
  }

  lemma NamedAsTold(env: Settings, st: State, before: seq<Message>, begin: Message, ms: seq<Message>, items: seq<Item>)
    requires begin.BeginMessage? && WellFormed(begin) && AllWellFormed(before) && AllWellFormed(ms)
    requires Carries(env, before + [begin], ms, items)
    ensures AllChanges(items)
    ensures NamedBy(env, After(env, st, before + [begin]), ms) == NamedItems(env, begin, items)
  {
    hide Read, Encode, WellFormed, Told, Print, Carries;
    var all := before + [begin];
    var here := After(env, st, all);
    assert all[..|all| - 1] == before;
    BeginReads(env, After(env, st, before), begin);
    assert here.finalLsn == begin.finalLsn;
    EmitsTheChanges(env, st, all, ms, items);
    KeepsFinalLsn(env, here, all, ms, items);
  }

  /** A transaction sent twice, in any two sessions and to parsers in any two
      states, decodes from its bytes to the same changes in the same order, a
      TRUNCATE of several relations included, each under the same name. */
  lemma SameOnEveryReStream(env: Settings, begin: Message, items: seq<Item>,
                            st: State, before: seq<Message>, ms: seq<Message>,
                            st': State, before': seq<Message>, ms': seq<Message>)
    requires begin.BeginMessage? && WellFormed(begin)
    requires AllWellFormed(before) && AllWellFormed(ms) && Carries(env, before + [begin], ms, items)
    requires AllWellFormed(before') && AllWellFormed(ms') && Carries(env, before' + [begin], ms', items)
    ensures NamedBy(env, After(env, st, before + [begin]), ms) == NamedBy(env, After(env, st', before' + [begin]), ms')
  {
    hide NamedBy, NamedItems, Carries, WellFormed, After;
    NamedAsTold(env, st, before, begin, ms, items);
    NamedAsTold(env, st', before', begin, ms', items);
  }
}

/** The uids of the mailboxes, as the methods of the Maildir store give them out under its lock. */
module MaildirUids {
  import opened Wrappers
  import opened MaildirModel

  /** What a method does: a mailbox is created, a message is appended (by a
      delivery, a copy or the first half of a move), an append fails at its last step, messages go. */
  datatype Event = Create(mailbox: int) | Assign(mailbox: int) | Burn(mailbox: int) | Remove(ids: set<MsgId>)

  datatype Uids = Uids(next: map<int, int>, present: set<MsgId>)

  predicate Legal(u: Uids, e: Event) {
    match e
    case Create(m) => m !in u.next
    case Assign(m) => m in u.next
    case Burn(m) => m in u.next
    case Remove(_) => true
  }

  function Step(u: Uids, e: Event): Uids
    requires Legal(u, e)
  {
    match e
    case Create(m) => u.(next := u.next[m := 1])
    case Assign(m) => Uids(u.next[m := u.next[m] + 1], u.present + {MsgId(m, u.next[m])})
    case Burn(m) => u.(next := u.next[m := u.next[m] + 1])
    case Remove(ids) => u.(present := u.present - ids)
  }

  function Run(events: seq<Event>): Option<Uids> {
    if events == [] then Some(Uids(map[], {}))
    else
      var before := Run(events[..|events| - 1]);
      if before.Some? && Legal(before.value, events[|events| - 1]) then Some(Step(before.value, events[|events| - 1])) else None
  }

  /** The uids given to messages of a mailbox, in order. */
  function Given(events: seq<Event>, mailbox: int): seq<int>
    requires Run(events).Some?
  {
    if events == [] then []
    else
      var front, last := events[..|events| - 1], events[|events| - 1];
      Given(front, mailbox) + (if last == Assign(mailbox) then [Run(front).value.next[mailbox]] else [])
  }

  predicate Increasing(uids: seq<int>) {
    forall i, j :: 0 <= i < j < |uids| ==> uids[i] < uids[j]
  }

  /** The uids given in a mailbox strictly increase, so none is given twice; all are below uidnext,
      and no message is there that was not given its uid. */
  lemma {:induction false} UidDiscipline(events: seq<Event>, mailbox: int)
    requires Run(events).Some?
    ensures var u, uids := Run(events).value, Given(events, mailbox);
            && Increasing(uids)
            && (forall uid :: uid in uids ==> mailbox in u.next && 1 <= uid < u.next[mailbox])
            && (mailbox in u.next ==> u.next[mailbox] >= 1)
            && (forall k :: k in u.present && k.mailbox == mailbox ==> k.uid in uids)
  {
    if events == [] {
    } else {
      UidDiscipline(events[..|events| - 1], mailbox);
      var front, last := events[..|events| - 1], events[|events| - 1];
      var u, uids := Run(front).value, Given(front, mailbox);
      if last == Assign(mailbox) {
        assert Given(events, mailbox) == uids + [u.next[mailbox]];
        assert forall i | 0 <= i < |uids| :: uids[i] in uids;
      } else {
        assert Given(events, mailbox) == uids;
      }
    }
  }

  // ----- the history of a store -----

  /** These events lead to these mailboxes and messages. */
  ghost predicate Recorded(history: seq<Event>, mailboxes: map<int, int>, ids: set<MsgId>) {
    Run(history) == Some(Uids(mailboxes, ids))
  }

  lemma RecordedNone()
    ensures Recorded([], map[], {})
  {
  }

  lemma RecordedMore(history: seq<Event>, mailboxes: map<int, int>, ids: set<MsgId>, e: Event)
    requires Recorded(history, mailboxes, ids) && Legal(Uids(mailboxes, ids), e)
    ensures var u := Step(Uids(mailboxes, ids), e); Recorded(history + [e], u.next, u.present)
  {
    hide Step, Legal;
    assert (history + [e])[..|history|] == history;
  }
}

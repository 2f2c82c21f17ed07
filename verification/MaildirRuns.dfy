/** What holds over whole runs of the Maildir store: reading a message by metadata that is out of
    date, and the uids of its mailboxes. */
module MaildirRuns {
  import opened MaildirFlags
  import opened MaildirModel
  import opened MaildirUids
  import opened Maildir

  // ----- out-of-date metadata -----

  /** A message after a series of flag changes, each with the faults it met. */
  function AfterChanges(k: MsgId, e: Entry, changes: seq<(seq<Flag>, SetFaults)>): Entry {
    if changes == [] then e
    else
      var last := changes[|changes| - 1];
      FlagsSet(k, AfterChanges(k, e, changes[..|changes| - 1]), last.0, last.1)
  }

  /** However its flags were changed meanwhile, and whatever failed, a message keeps its bytes and
      the base of its key; so GetMessageBody finds it by the key read before. */
  lemma {:induction false} StaleKeyStillFinds(k: MsgId, e: Entry, changes: seq<(seq<Flag>, SetFaults)>)
    requires EntryOk(e)
    ensures var e' := AfterChanges(k, e, changes);
            && EntryOk(e') && e'.body == e.body && BaseOf(e'.row.key) == BaseOf(e.row.key)
            && e'.row.size == e.row.size && e'.row.date == e.row.date
  {
    if changes == [] {
    } else {
      hide Renamed, Flagged, EntryOk, BaseOf;
      var front, last := changes[..|changes| - 1], changes[|changes| - 1];
      StaleKeyStillFinds(k, e, front);
      var before := AfterChanges(k, e, front);
      RenamedOk(before, last.0);
      ChangeKeeps(before, last.0);
    }
  }

  lemma ChangeKeeps(e: Entry, flags: seq<Flag>)
    ensures Renamed(e, flags).body == Flagged(e, flags).body == e.body
    ensures Renamed(e, flags).row.size == Flagged(e, flags).row.size == e.row.size
    ensures Renamed(e, flags).row.date == Flagged(e, flags).row.date == e.row.date
    ensures Flagged(e, flags).row.key == e.row.key
    ensures EntryOk(e) ==> EntryOk(Flagged(e, flags))
  {
  }

  // ----- where a seen message lies -----

  /** A change of flags that goes through leaves a seen message in cur and any other in new, under a
      name with the letters of its flags; one that fails half way leaves the file where it was. */
  lemma SeenInCur(k: MsgId, e: Entry, flags: seq<Flag>, f: SetFaults)
    requires EntryOk(e) && !e.gone
    ensures var e' := FlagsSet(k, e, flags, f);
            && e'.row.flags == Join(flags) && BaseOf(e'.row.key) == BaseOf(e.row.key)
            && (FlagsHalfSet(k, e, flags, f) ==> e'.sub == e.sub && e'.row.key == e.row.key)
            && (!FlagsHalfSet(k, e, flags, f) ==>
                  && e'.sub == (if SEEN in flags then Cur else New)
                  && ('S' in e'.row.key <==> SEEN in flags)
                  && e'.row.key == BaseOf(e.row.key) + (if Suffix(flags) == "" then "" else ":2," + Suffix(flags)))
  {
    hide BaseOf, IsBase, Suffix;
    RenamedOk(e, flags);
    SeenLetter(BaseOf(e.row.key), flags);
  }

  /** In any store its methods have led to, whatever failed, the files in cur are exactly those whose
      name has the letter of a seen message; no message's file is left in tmp. */
  lemma SeenFiles(s: Store, p: Path)
    requires s.Valid() && p in s.files
    ensures !p.sub.Tmp? && (p.sub.Cur? <==> 'S' in p.name)
  {
    hide Agree, Recorded;
    var k := NoStrays(s.rows, s.files, s.entries, p);
    OneFileEach(s.rows, s.files, s.entries, k, p.sub);
  }

  // ----- uids -----

  /** The uids of any store its methods have led to, whatever failed: in each mailbox those given so far strictly
      increase, so none was given twice; all are below uidnext; and no message is there that was
      not given its uid. */
  lemma UidsOfStore(s: Store, mailbox: int)
    requires s.Valid()
    ensures Run(s.history).Some?
    ensures var uids := Given(s.history, mailbox);
            && Increasing(uids)
            && (forall uid :: uid in uids ==> mailbox in s.mailboxes && 1 <= uid < s.mailboxes[mailbox])
            && (forall k :: k in s.rows && k.mailbox == mailbox ==> k.uid in uids)
  {
    AgreeKeys(s.rows, s.files, s.entries);
    hide Agree, Given, Run;
    UidDiscipline(s.history, mailbox);
  }
}

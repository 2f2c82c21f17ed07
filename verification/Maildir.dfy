/** The Maildir store: every method keeps rows and files in step
    (internal/storage/maildir/maildir.go). The rows are the table of messages, the files the
    directories of the mailboxes, and two ghost fields say what both stand for: the messages, each
    with the bytes once appended, and the history of the uids. A parameter of each method says
    which of its database and file commands fail. */
module Maildir {
  import opened Wrappers
  import opened Strings
  import opened MaildirFlags
  import opened MaildirModel
  import opened MaildirUids

  datatype StoreError = NoMailbox | NoMessage | FileError | DbError

  /** Which steps of an append fail; `partial` is what a failing write leaves in the file. */
  datatype AppendFaults = AppendFaults(mkdir: bool, create: bool, write: bool, partial: string, rename: bool,
                                       uidnext: bool, insert: bool)

  datatype SetFaults = SetFaults(update: bool, mailbox: bool, rename: bool, keyUpdate: bool)

  function FlagSet(flags: seq<Flag>): set<Flag> {
    set f | f in flags
  }

  /** A change of flags, and what it makes of the flags a message has. */
  datatype Change = Change(add: bool, flags: set<Flag>)

  function Applied(c: Change, had: set<Flag>): set<Flag> {
    if c.add then had + c.flags else had - c.flags
  }

  predicate Written(f: AppendFaults) {
    !f.mkdir && !f.create && !f.write && !f.rename
  }

  /** The query of an expunge. */
  predicate Marked(flags: string) {
    Like("%" + DELETED + "%", flags)
  }

  /** The row got the flags but the name of the file did not. */
  predicate FlagsHalfSet(k: MsgId, e: Entry, flags: seq<Flag>, f: SetFaults) {
    f.mailbox || (!e.gone && FileOf(k, Renamed(e, flags)) != FileOf(k, e) && (f.rename || f.keyUpdate))
  }

  function FlagsSet(k: MsgId, e: Entry, flags: seq<Flag>, f: SetFaults): Entry {
    if e.gone || FlagsHalfSet(k, e, flags, f) then Flagged(e, flags) else Renamed(e, flags)
  }

  /** Every uid in use is below uidnext of its mailbox, and uids start at 1. */
  predicate UidsBelow(ids: set<MsgId>, mailboxes: map<int, int>) {
    && (forall k :: k in ids ==> k.mailbox in mailboxes && 1 <= k.uid < mailboxes[k.mailbox])
    && (forall m :: m in mailboxes ==> mailboxes[m] >= 1)
  }

  lemma UidAdvanced(ids: set<MsgId>, mailboxes: map<int, int>, m: int)
    requires UidsBelow(ids, mailboxes) && m in mailboxes
    ensures var k := MsgId(m, mailboxes[m]); var mailboxes' := mailboxes[m := mailboxes[m] + 1];
            k !in ids && UidsBelow(ids, mailboxes') && UidsBelow(ids + {k}, mailboxes')
  {
  }

  lemma SetTwice<K, V>(m: map<K, V>, k: K, v: V, w: V)
    ensures m[k := v][k := w] == m[k := w]
    ensures k in m ==> m[k := v].Keys == m.Keys
  {
  }

  lemma SetAndDropped(entries: map<MsgId, Entry>, before: map<MsgId, Entry>, k: MsgId)
    requires k in before && entries == before[k := Gone(before[k])]
    ensures k in entries && entries[k].gone && entries - {k} == before - {k}
  {
  }

  lemma RenamedLater(e: Entry, flags: seq<Flag>)
    ensures Renamed(Flagged(e, flags), flags) == Renamed(e, flags)
  {
  }

  lemma FlaggedMeans(k: MsgId, e: Entry, flags: seq<Flag>)
    ensures Flagged(e, flags).row == e.row.(flags := Join(flags)) && FileOf(k, Flagged(e, flags)) == FileOf(k, e)
    ensures Flagged(e, flags).sub == e.sub && Flagged(e, flags).gone == e.gone
    ensures FileOf(k, Renamed(e, flags)) == Path(k.mailbox, SubFor(flags), FileName(BaseOf(e.row.key), flags))
  {
  }

  lemma SamePlace(k: MsgId, e: Entry, flags: seq<Flag>)
    requires FileOf(k, Renamed(e, flags)) == FileOf(k, e)
    ensures Renamed(e, flags) == Flagged(e, flags)
  {
  }

  lemma GeneratedFresh(entries: map<MsgId, Entry>, nano: nat, hex: string)
    requires HexDigits(hex) && Unused(entries, GeneratedKey(nano, hex))
    ensures FreshBase(entries, GeneratedKey(nano, hex))
  {
    hide Unused, GeneratedKey;
    GeneratedIsBase(nano, hex);
  }

  /** Uids are as the history has given them out. */
  ghost predicate Numbered(rows: map<MsgId, Row>, entries: map<MsgId, Entry>, mailboxes: map<int, int>,
                           history: seq<Event>)
  {
    rows.Keys == entries.Keys && UidsBelow(entries.Keys, mailboxes) && Recorded(history, mailboxes, entries.Keys)
  }

  /** And rows and files agree. */
  ghost predicate Consistent(rows: map<MsgId, Row>, files: map<Path, string>, entries: map<MsgId, Entry>,
                             mailboxes: map<int, int>, history: seq<Event>)
  {
    Agree(rows, files, entries) && Numbered(rows, entries, mailboxes, history)
  }

  lemma ConsistentMeans(rows: map<MsgId, Row>, files: map<Path, string>, entries: map<MsgId, Entry>,
                        mailboxes: map<int, int>, history: seq<Event>)
    requires Consistent(rows, files, entries, mailboxes, history)
    ensures Agree(rows, files, entries) && Numbered(rows, entries, mailboxes, history)
  {
  }

  lemma NothingYet()
    ensures Consistent(map[], map[], map[], map[], [])
  {
    RecordedNone();
    var none: map<MsgId, Entry> := map[];
    assert none.Keys == {};
  }

  lemma CreateKeeps(rows: map<MsgId, Row>, files: map<Path, string>, entries: map<MsgId, Entry>,
                    mailboxes: map<int, int>, history: seq<Event>, id: int)
    requires Consistent(rows, files, entries, mailboxes, history) && id !in mailboxes
    ensures Consistent(rows, files, entries, mailboxes[id := 1], history + [Create(id)])
  {
    hide Agree, Recorded;
    RecordedMore(history, mailboxes, entries.Keys, Create(id));
  }

  lemma BurnKeeps(rows: map<MsgId, Row>, files: map<Path, string>, entries: map<MsgId, Entry>,
                  mailboxes: map<int, int>, history: seq<Event>, m: int)
    requires Consistent(rows, files, entries, mailboxes, history) && m in mailboxes
    ensures Consistent(rows, files, entries, mailboxes[m := mailboxes[m] + 1], history + [Burn(m)])
  {
    hide Agree, Recorded, UidsBelow;
    UidAdvanced(entries.Keys, mailboxes, m);
    RecordedMore(history, mailboxes, entries.Keys, Burn(m));
  }

  lemma AppendedFresh(entries: map<MsgId, Entry>, k: MsgId, key: string, flags: seq<Flag>, date: int, body: string)
    requires FreshBase(entries, key)
    ensures var e := Appended(key, flags, date, body);
            && e.row == Row(FileName(key, flags), |body|, date, Join(flags)) && e.body == body
            && FileOf(k, e) == Path(k.mailbox, SubFor(flags), FileName(key, flags))
            && EntryOk(e) && !e.gone && FreshBase(entries, BaseOf(e.row.key))
  {
    AppendedOk(key, flags, date, body);
  }

  lemma AppendKeeps(rows: map<MsgId, Row>, files: map<Path, string>, entries: map<MsgId, Entry>, mailboxes: map<int, int>,
                    history: seq<Event>, k: MsgId, key: string, flags: seq<Flag>, date: int, body: string)
    requires Consistent(rows, files, entries, mailboxes, history) && FreshBase(entries, key)
    requires k.mailbox in mailboxes && k.uid == mailboxes[k.mailbox]
    ensures var e := Appended(key, flags, date, body);
            && k !in entries && e.row == Row(FileName(key, flags), |body|, date, Join(flags)) && e.body == body
            && FileOf(k, e) == Path(k.mailbox, SubFor(flags), FileName(key, flags))
            && Consistent(rows[k := e.row], files[FileOf(k, e) := body], entries[k := e],
                          mailboxes[k.mailbox := k.uid + 1], history + [Assign(k.mailbox)])
  {
    hide Agree, Recorded, UidsBelow, Join, FileName, BaseOf, IsBase, FreshBase, EntryOk, Appended;
    var e := Appended(key, flags, date, body);
    UidAdvanced(entries.Keys, mailboxes, k.mailbox);
    AppendedFresh(entries, k, key, flags, date, body);
    AgreeAdd(rows, files, entries, k, e);
    RecordedMore(history, mailboxes, entries.Keys, Assign(k.mailbox));
    assert entries[k := e].Keys == entries.Keys + {k};
  }

  lemma FlagKeeps(rows: map<MsgId, Row>, files: map<Path, string>, entries: map<MsgId, Entry>,
                  mailboxes: map<int, int>, history: seq<Event>, k: MsgId, flags: seq<Flag>)
    requires Consistent(rows, files, entries, mailboxes, history) && k in entries
    ensures var e := Flagged(entries[k], flags);
            Consistent(rows[k := e.row], files, entries[k := e], mailboxes, history)
  {
    hide Agree, Recorded, UidsBelow, Flagged;
    AgreeFlag(rows, files, entries, k, flags);
    assert entries[k := Flagged(entries[k], flags)].Keys == entries.Keys;
  }

  lemma RenameKeeps(rows: map<MsgId, Row>, files: map<Path, string>, entries: map<MsgId, Entry>, mailboxes: map<int, int>,
                    history: seq<Event>, k: MsgId, flags: seq<Flag>)
    requires Consistent(rows, files, entries, mailboxes, history)
    requires k in entries && !entries[k].gone && entries[k].row.flags == Join(flags)
    ensures var e := Renamed(entries[k], flags); var newPath := FileOf(k, e);
            && e.row == entries[k].row.(key := newPath.name) && FileOf(k, entries[k]) in files
            && Consistent(rows[k := e.row], (files - {FileOf(k, entries[k])})[newPath := files[FileOf(k, entries[k])]],
                          entries[k := e], mailboxes, history)
  {
    AgreeKeys(rows, files, entries);
    hide Agree, Recorded, UidsBelow, FileName, BaseOf, Join;
    AgreeRename(rows, files, entries, k, flags);
    assert Present(files, k, entries[k]);
    assert entries[k := Renamed(entries[k], flags)].Keys == entries.Keys;
    assert Renamed(entries[k], flags).body == entries[k].body;
  }

  lemma LoseKeeps(rows: map<MsgId, Row>, files: map<Path, string>, entries: map<MsgId, Entry>,
                  mailboxes: map<int, int>, history: seq<Event>, k: MsgId)
    requires Consistent(rows, files, entries, mailboxes, history) && k in entries
    ensures Consistent(rows, files - {FileOf(k, entries[k])}, entries[k := Gone(entries[k])], mailboxes, history)
  {
    hide Agree, Recorded, UidsBelow;
    AgreeLose(rows, files, entries, k);
    assert entries[k := Gone(entries[k])].Keys == entries.Keys;
  }

  /** Rows whose files are gone already may go. */
  lemma AgreeWithout(rows: map<MsgId, Row>, files: map<Path, string>, entries: map<MsgId, Entry>, found: set<MsgId>)
    requires Agree(rows, files, entries) && forall k :: k in found && k in entries ==> entries[k].gone
    ensures Agree(rows - found, files, entries - found)
  {
    hide BaseOf, IsBase, NamedOk;
    forall p | p in files ensures HasOwner(entries - found, p) {
      var k :| k in entries && Owns(k, entries[k], p);
      assert k in entries - found && Owns(k, (entries - found)[k], p);
    }
  }

  lemma ExpungeKeeps(rows: map<MsgId, Row>, files: map<Path, string>, entries: map<MsgId, Entry>, mailboxes: map<int, int>,
                     history: seq<Event>, found: set<MsgId>)
    requires Consistent(rows, files, entries, mailboxes, history)
    requires forall k :: k in found && k in entries ==> entries[k].gone
    ensures Consistent(rows - found, files, entries - found, mailboxes, history + [Remove(found)])
  {
    hide Agree, Recorded, UidsBelow;
    AgreeWithout(rows, files, entries, found);
    UidsFewer(entries.Keys, entries.Keys - found, mailboxes);
    MinusKeys(entries, found);
    RecordedMore(history, mailboxes, entries.Keys, Remove(found));
  }

  class Store {
    /** uidnext of each mailbox. */
    var mailboxes: map<int, int>
    var rows: map<MsgId, Row>
    var files: map<Path, string>
    /** The messages the rows and files stand for. */
    ghost var entries: map<MsgId, Entry>
    /** What the methods have done so far. */
    ghost var history: seq<Event>

    ghost predicate Valid()
      reads this
    {
      Consistent(rows, files, entries, mailboxes, history)
    }

    constructor ()
      ensures Valid() && entries == map[] && mailboxes == map[] && history == []
    {
      mailboxes, rows, files, entries, history := map[], map[], map[], map[], [];
      new;
      NothingYet();
    }

    method CreateMailbox(id: int)
      requires Valid() && id !in mailboxes
      modifies this
      ensures Valid() && entries == old(entries) && mailboxes == old(mailboxes)[id := 1]
      ensures history == old(history) + [Create(id)]
    {
      hide Consistent;
      CreateKeeps(rows, files, entries, mailboxes, history, id);
      history := history + [Create(id)];
      mailboxes := mailboxes[id := 1];
    }

    /** The file of a new message: written in tmp, then moved to new or, if it is seen, to cur. */
    method WriteFile(mailbox: int, flags: seq<Flag>, body: string, key: string, f: AppendFaults)
      returns (r: Result<Path, StoreError>)
      requires Path(mailbox, Tmp, key) !in files && Path(mailbox, SubFor(flags), FileName(key, flags)) !in files
      modifies this`files
      ensures r.Ok? <==> !f.mkdir && !f.create && !f.write && !f.rename
      ensures r.Ok? ==> r.value == Path(mailbox, SubFor(flags), FileName(key, flags)) && files == old(files)[r.value := body]
      ensures r.Err? ==> files == old(files)
    {
      hide FileName;
      if f.mkdir {
        return Err(FileError);
      }
      var tmpPath := Path(mailbox, Tmp, key);
      if f.create {
        return Err(FileError);
      }
      files := files[tmpPath := if f.write then f.partial else body];
      if f.write {
        files := files - {tmpPath};
        assert files == old(files);
        return Err(FileError);
      }
      var destDir := New;
      for i := 0 to |flags|
        invariant destDir == New && SEEN !in flags[..i] && files == old(files)[tmpPath := body]
      {
        if flags[i] == SEEN {
          destDir := Cur;
          break;
        }
      }
      assert destDir == SubFor(flags);
      var finalKey := FileName(key, flags);
      var destPath := Path(mailbox, destDir, finalKey);
      if f.rename {
        files := files - {tmpPath};
        assert files == old(files);
        return Err(FileError);
      }
      files := (files - {tmpPath})[destPath := files[tmpPath]];
      assert files == old(files)[destPath := body];
      r := Ok(destPath);
    }

    /** A failed append leaves every message and file as it was; only an insert that fails has
        used up the uid. */
    method AppendMessage(mailbox: int, flags: seq<Flag>, date: int, body: string, nano: nat, hex: string, f: AppendFaults)
      returns (r: Result<int, StoreError>)
      requires Valid() && HexDigits(hex) && Unused(entries, GeneratedKey(nano, hex))
      modifies this
      ensures Valid()
      ensures r.Ok? <==> mailbox in old(mailboxes) && Written(f) && !f.uidnext && !f.insert
      ensures r.Ok? ==>
                && r.value == old(mailboxes)[mailbox] && MsgId(mailbox, r.value) !in old(entries)
                && mailboxes == old(mailboxes)[mailbox := r.value + 1]
                && entries == old(entries)[MsgId(mailbox, r.value) := Appended(GeneratedKey(nano, hex), flags, date, body)]
      ensures r.Err? ==>
                && entries == old(entries) && rows == old(rows) && files == old(files)
                && mailboxes == if mailbox in old(mailboxes) && Written(f) && !f.uidnext
                                then old(mailboxes)[mailbox := old(mailboxes)[mailbox] + 1] else old(mailboxes)
      ensures history == old(history) + if mailbox !in old(mailboxes) || !Written(f) || f.uidnext then []
                                        else if f.insert then [Burn(mailbox)] else [Assign(mailbox)]
    {
      hide Consistent, Agree, FreshBase, Unused, Join, FileName, HexDigits, GeneratedKey;
      if mailbox !in mailboxes {
        return Err(NoMailbox);
      }
      var key := GeneratedKey(nano, hex);
      GeneratedFresh(entries, nano, hex);
      ConsistentMeans(rows, files, entries, mailboxes, history);
      NewPaths(rows, files, entries, mailbox, key, flags);
      var destPath :- WriteFile(mailbox, flags, body, key, f);
      var uid := mailboxes[mailbox];
      if f.uidnext {
        files := files - {destPath};
        assert files == old(files);
        return Err(DbError);
      }
      mailboxes := mailboxes[mailbox := mailboxes[mailbox] + 1];
      if f.insert {
        files := files - {destPath};
        assert files == old(files);
        BurnKeeps(rows, files, entries, old(mailboxes), history, mailbox);
        history := history + [Burn(mailbox)];
        return Err(DbError);
      }
      ghost var k, e := MsgId(mailbox, uid), Appended(key, flags, date, body);
      AppendKeeps(rows, old(files), entries, old(mailboxes), history, k, key, flags, date, body);
      rows := rows[MsgId(mailbox, uid) := Row(destPath.name, |body|, date, Join(flags))];
      entries := entries[k := e];
      history := history + [Assign(mailbox)];
      r := Ok(uid);
    }

    /** The body of a message, found by its key even if the flags in the key are out of date. */
    method GetMessageBody(mailbox: int, key: string) returns (r: Option<string>)
      requires Valid() && NamedOk(key)
      ensures forall k :: k in entries && k.mailbox == mailbox && BaseOf(entries[k].row.key) == BaseOf(key) ==>
                r == if entries[k].gone then None else Some(entries[k].body)
      ensures (forall k :: k in entries && k.mailbox == mailbox ==> BaseOf(entries[k].row.key) != BaseOf(key)) ==> r.None?
    {
      hide Agree, BaseOf, IsBase;
      var subdirs := [Cur, New];
      for i := 0 to 2
        invariant forall s :: s in subdirs[..i] ==> Path(mailbox, s, key) !in files
      {
        if Path(mailbox, subdirs[i], key) in files {
          FoundByBase(rows, files, entries, Path(mailbox, subdirs[i], key));
          return Some(files[Path(mailbox, subdirs[i], key)]);
        }
      }
      var baseKey := BaseOf(key);
      NamedBase(key);
      for i := 0 to 2
        invariant forall s :: s in subdirs[..i] ==> Path(mailbox, s, baseKey) !in files
      {
        if Path(mailbox, subdirs[i], baseKey) in files {
          FoundByBase(rows, files, entries, Path(mailbox, subdirs[i], baseKey));
          return Some(files[Path(mailbox, subdirs[i], baseKey)]);
        }
      }
      for i := 0 to 2
        invariant forall p :: p in files && p.mailbox == mailbox && p.sub in subdirs[..i] ==> !HasPrefix(p.name, baseKey)
      {
        var left := set p | p in files && p.mailbox == mailbox && p.sub == subdirs[i];
        while left != {}
          invariant forall p :: p in left ==> p in files && p.mailbox == mailbox && p.sub == subdirs[i]
          invariant forall p :: p in files && p.mailbox == mailbox && p.sub == subdirs[i] && p !in left ==>
                      !HasPrefix(p.name, baseKey)
          decreases |left|
        {
          var p :| p in left;
          left := left - {p};
          if HasPrefix(p.name, baseKey) {
            PrefixFound(rows, files, entries, p, baseKey);
            FoundByBase(rows, files, entries, p);
            return Some(files[p]);
          }
        }
      }
      assert subdirs[..2] == subdirs && Cur in subdirs && New in subdirs by { assert subdirs[0] == Cur && subdirs[1] == New; }
      NotFound(rows, files, entries, mailbox, baseKey);
      r := None;
    }

    method SetFlags(k: MsgId, flags: seq<Flag>, f: SetFaults) returns (r: Result<(), StoreError>)
      requires Valid()
      modifies this
      ensures Valid() && mailboxes == old(mailboxes) && history == old(history)
      ensures entries == if k in old(entries) && !f.update
                         then old(entries)[k := FlagsSet(k, old(entries)[k], flags, f)] else old(entries)
      ensures r.Ok? <==> k in old(entries) && !f.update && !FlagsHalfSet(k, old(entries)[k], flags, f)
    {
      hide Agree, Join, BaseOf, FileName, UidsBelow, Renamed, Flagged, Recorded;
      AgreeKeys(rows, files, entries);
      if k !in rows {
        return Err(NoMessage);
      }
      if f.update {
        return Err(DbError);
      }
      ghost var e := entries[k];
      FlaggedMeans(k, e, flags);
      RenamedLater(e, flags);
      SetTwice(entries, k, Flagged(e, flags), Renamed(e, flags));
      var key := rows[k].key;
      UpdateRow(k, flags);
      if f.mailbox {
        return Err(NoMailbox);
      }
      FileFound(rows, files, entries, k);
      var sub := if Path(k.mailbox, Cur, key) in files then Some(Cur)
                 else if Path(k.mailbox, New, key) in files then Some(New) else None;
      if sub.None? {
        return Ok(());
      }
      var oldPath := Path(k.mailbox, sub.value, key);
      var newKey := FileName(BaseOf(key), flags);
      var newPath := Path(k.mailbox, if SEEN in flags then Cur else New, newKey);
      if oldPath != newPath {
        r := MoveFile(k, flags, oldPath, newPath, f);
      } else {
        SamePlace(k, e, flags);
        r := Ok(());
      }
    }

    /** The flags column alone. */
    method UpdateRow(k: MsgId, flags: seq<Flag>)
      requires Valid() && k in entries
      modifies this`rows, this`entries
      ensures Valid() && entries == old(entries)[k := Flagged(old(entries)[k], flags)]
    {
      hide Consistent, Agree, Join, Flagged;
      ConsistentMeans(rows, files, entries, mailboxes, history);
      AgreeKeys(rows, files, entries);
      FlagKeeps(rows, files, entries, mailboxes, history, k, flags);
      FlaggedMeans(k, entries[k], flags);
      rows := rows[k := rows[k].(flags := Join(flags))];
      entries := entries[k := Flagged(entries[k], flags)];
    }

    /** The renaming of a SetFlags; it is undone if the row cannot follow. */
    method MoveFile(k: MsgId, flags: seq<Flag>, oldPath: Path, newPath: Path, f: SetFaults) returns (r: Result<(), StoreError>)
      requires Valid() && k in entries && !entries[k].gone && entries[k].row.flags == Join(flags)
      requires oldPath == FileOf(k, entries[k]) != FileOf(k, Renamed(entries[k], flags)) == newPath
      modifies this`rows, this`files, this`entries
      ensures Valid()
      ensures r.Ok? <==> !f.rename && !f.keyUpdate
      ensures entries == if r.Ok? then old(entries)[k := Renamed(old(entries)[k], flags)] else old(entries)
    {
      hide Consistent, Agree, Join, BaseOf, FileName, Renamed;
      if f.rename {
        return Err(FileError);
      }
      ConsistentMeans(rows, files, entries, mailboxes, history);
      AgreeKeys(rows, files, entries);
      RenameKeeps(rows, files, entries, mailboxes, history, k, flags);
      PlaceFree(rows, files, entries, k, flags);
      files := (files - {oldPath})[newPath := files[oldPath]];
      if f.keyUpdate {
        files := (files - {newPath})[oldPath := files[newPath]];
        assert files == old(files);
        return Err(DbError);
      }
      rows := rows[k := rows[k].(key := newPath.name)];
      entries := entries[k := Renamed(entries[k], flags)];
      r := Ok(());
    }

    /** Flags are added or removed as sets; a list without duplicates comes of an addition. */
    method ChangedFlags(k: MsgId, flags: seq<Flag>, add: bool) returns (r: Result<seq<Flag>, StoreError>)
      requires Valid()
      ensures r.Ok? <==> k in entries
      ensures r.Ok? ==> FlagSet(r.value) == Applied(Change(add, FlagSet(flags)), FlagSet(Flags(entries[k].row.flags)))
    {
      hide Agree, Flags;
      AgreeKeys(rows, files, entries);
      if k !in rows {
        return Err(NoMessage);
      }
      var current := Flags(rows[k].flags);
      var newFlags;
      if add {
        newFlags := ListOf(FlagSet(current) + FlagSet(flags));
      } else {
        newFlags := Without(current, FlagSet(flags));
      }
      r := Ok(newFlags);
    }

    /** One update that nothing interrupts: the flags are read before the lock is taken, and set
        under it. */
    method UpdateFlags(k: MsgId, flags: seq<Flag>, add: bool, f: SetFaults)
      returns (r: Result<(), StoreError>, newFlags: seq<Flag>)
      requires Valid()
      modifies this
      ensures Valid() && mailboxes == old(mailboxes) && history == old(history)
      ensures k in old(entries) ==>
                FlagSet(newFlags) == Applied(Change(add, FlagSet(flags)), FlagSet(Flags(old(entries)[k].row.flags)))
      ensures entries == if k in old(entries) && !f.update
                         then old(entries)[k := FlagsSet(k, old(entries)[k], newFlags, f)] else old(entries)
      ensures r.Ok? <==> k in old(entries) && !f.update && !FlagsHalfSet(k, old(entries)[k], newFlags, f)
    {
      hide Consistent, FlagsSet, FlagsHalfSet, Flags;
      var changed := ChangedFlags(k, flags, add);
      if changed.Err? {
        return Err(NoMessage), [];
      }
      newFlags := changed.value;
      r := SetFlags(k, newFlags, f);
    }

    /** The copy has the date and the body of the message, and its flags but \Recent; one that fails,
        as it does if the file of the message is gone, has at most used up a uid of the destination. */
    method CopyMessage(k: MsgId, dest: int, nano: nat, hex: string, f: AppendFaults)
      returns (r: Result<int, StoreError>, flags: seq<Flag>)
      requires Valid() && HexDigits(hex) && Unused(entries, GeneratedKey(nano, hex))
      modifies this
      ensures Valid()
      ensures r.Ok? <==> k in old(entries) && !old(entries)[k].gone && dest in old(mailboxes) && Written(f) && !f.uidnext && !f.insert
      ensures r.Ok? ==>
                && r.value == old(mailboxes)[dest] && MsgId(dest, r.value) !in old(entries)
                && mailboxes == old(mailboxes)[dest := r.value + 1]
                && FlagSet(flags) == FlagSet(Flags(old(entries)[k].row.flags)) - {RECENT}
                && entries == old(entries)[MsgId(dest, r.value) :=
                                           Appended(GeneratedKey(nano, hex), flags, old(entries)[k].row.date,
                                                    old(entries)[k].body)]
      ensures r.Err? ==>
                && entries == old(entries) && rows == old(rows) && files == old(files)
                && mailboxes == if k in old(entries) && !old(entries)[k].gone && dest in old(mailboxes) && Written(f) && !f.uidnext
                                then old(mailboxes)[dest := old(mailboxes)[dest] + 1] else old(mailboxes)
      ensures history == old(history) + if k !in old(entries) || old(entries)[k].gone || dest !in old(mailboxes) || !Written(f) || f.uidnext then []
                                        else if f.insert then [Burn(dest)] else [Assign(dest)]
    {
      hide Agree, FreshBase, Appended, Flags, UidsBelow, EntriesOk, NamedOk, BaseOf, FlagSet, Recorded, HexDigits,
           GeneratedKey, Unused;
      AgreeKeys(rows, files, entries);
      flags := [];
      if k !in rows {
        return Err(NoMessage), flags;
      }
      var srcMsg := rows[k];
      KeyNamed(entries, k);
      var body := GetMessageBody(k.mailbox, srcMsg.key);
      if body.None? {
        return Err(FileError), flags;
      }
      flags := Without(Flags(srcMsg.flags), {RECENT});
      r := AppendMessage(dest, flags, srcMsg.date, body.value, nano, hex, f);
    }

    /** The copy, then the source goes. The new message is returned even if the row of the source
        cannot be deleted, which then stays without its file. */
    method MoveMessage(k: MsgId, dest: int, nano: nat, hex: string, f: AppendFaults, deleteFails: bool)
      returns (uid: Option<int>, err: Option<StoreError>, flags: seq<Flag>)
      requires Valid() && HexDigits(hex) && Unused(entries, GeneratedKey(nano, hex))
      modifies this
      ensures Valid()
      ensures uid.Some? <==>
                k in old(entries) && !old(entries)[k].gone && dest in old(mailboxes) && Written(f) && !f.uidnext && !f.insert
      ensures err.None? <==> uid.Some? && !deleteFails
      ensures uid.Some? ==>
                && uid.value == old(mailboxes)[dest] && MsgId(dest, uid.value) !in old(entries)
                && mailboxes == old(mailboxes)[dest := uid.value + 1]
                && FlagSet(flags) == FlagSet(Flags(old(entries)[k].row.flags)) - {RECENT}
                && var id := MsgId(dest, uid.value);
                   var e := Appended(GeneratedKey(nano, hex), flags, old(entries)[k].row.date, old(entries)[k].body);
                   if err.None? then
                     entries == old(entries)[id := e] - {k} && history == old(history) + [Assign(dest), Remove({k})]
                   else
                     entries == old(entries)[id := e][k := Gone(old(entries)[k])] && history == old(history) + [Assign(dest)]
      ensures uid.None? ==>
                && entries == old(entries) && rows == old(rows) && files == old(files)
                && mailboxes == (if k in old(entries) && !old(entries)[k].gone && dest in old(mailboxes) && Written(f) && !f.uidnext
                                 then old(mailboxes)[dest := old(mailboxes)[dest] + 1] else old(mailboxes))
                && history == old(history) + if mailboxes == old(mailboxes) then [] else [Burn(dest)]
    {
      hide Consistent, Agree, FreshBase, Appended, Flags, FlagSet, HexDigits, GeneratedKey, Unused;
      var copy;
      copy, flags := CopyMessage(k, dest, nano, hex, f);
      if copy.Err? {
        return None, Some(copy.error), flags;
      }
      uid := Some(copy.value);
      assert history + [Remove({k})] == old(history) + [Assign(dest), Remove({k})];
      var gone := ExpungeMessage(k, deleteFails);
      err := if gone.Err? then Some(gone.error) else None;
    }

    /** If the row cannot be deleted it stays without its file, and nothing else changes. */
    method ExpungeMessage(k: MsgId, deleteFails: bool) returns (r: Result<(), StoreError>)
      requires Valid()
      modifies this`rows, this`files, this`entries, this`history
      ensures Valid()
      ensures r.Ok? <==> k in old(entries) && !deleteFails
      ensures r.Ok? ==> entries == old(entries) - {k} && history == old(history) + [Remove({k})]
      ensures r.Err? ==>
                && rows == old(rows) && history == old(history)
                && entries == if k in old(entries) then old(entries)[k := Gone(old(entries)[k])] else old(entries)
      ensures files == if k in old(entries) then old(files) - {FileOf(k, old(entries)[k])} else old(files)
    {
      hide Consistent, Numbered, Agree, FileOf, UidsBelow, Recorded;
      ConsistentMeans(rows, files, entries, mailboxes, history);
      AgreeKeys(rows, files, entries);
      if k !in rows {
        return Err(NoMessage);
      }
      RemoveOne(k);
      if deleteFails {
        return Err(DbError);
      }
      SetAndDropped(entries, old(entries), k);
      DropRow(k);
      r := Ok(());
    }

    /** The row of a message whose file is gone. */
    method DropRow(k: MsgId)
      requires Valid() && k in entries && entries[k].gone
      modifies this`rows, this`entries, this`history
      ensures Valid() && entries == old(entries) - {k} && history == old(history) + [Remove({k})]
    {
      hide Consistent;
      ExpungeKeeps(rows, files, entries, mailboxes, history, {k});
      rows := rows - {k};
      entries := entries - {k};
      history := history + [Remove({k})];
    }

    /** Exactly the messages the query marks are removed, each once; if their rows cannot be
        deleted these stay without their files, and nothing else changes. */
    method ExpungeMailbox(mailbox: int, deleteFails: bool) returns (expunged: seq<int>, r: Result<(), StoreError>)
      requires Valid()
      modifies this`rows, this`files, this`entries, this`history
      ensures Valid()
      ensures Lists(expunged, mailbox, MarkedIds(old(entries), mailbox))
      ensures r.Ok? <==> !deleteFails || expunged == []
      ensures files == old(files) - FilesOf(old(entries), MarkedIds(old(entries), mailbox))
      ensures r.Ok? ==>
                && entries == old(entries) - MarkedIds(old(entries), mailbox)
                && history == old(history) + [Remove(MarkedIds(old(entries), mailbox))]
      ensures r.Err? ==>
                && entries == AllGone(old(entries), MarkedIds(old(entries), mailbox))
                && rows == old(rows) && history == old(history)
    {
      hide Consistent, Numbered, Agree, MarkedIds, MarkedKeys, Unmarked, Lists, FilesOf, AllGone;
      ConsistentMeans(rows, files, entries, mailboxes, history);
      AgreeKeys(rows, files, entries);
      MarkedRows(rows, entries, mailbox);
      MarkedHere(rows, mailbox);
      var found := MarkedKeys(rows, mailbox);
      expunged := RemoveFiles(mailbox, found);
      AllGoneMeans(old(entries), found);
      if |expunged| > 0 && deleteFails {
        return expunged, Err(DbError);
      }
      ExpungeKeeps(rows, files, entries, mailboxes, history, found);
      UidsListed(expunged, found, mailbox);
      if |expunged| > 0 {
        rows := Unmarked(rows, mailbox);
      }
      entries := entries - found;
      history := history + [Remove(found)];
      r := Ok(());
    }

    /** The files of the marked messages; their rows go afterwards, all at once. */
    method RemoveFiles(mailbox: int, found: set<MsgId>) returns (expunged: seq<int>)
      requires Valid() && found <= entries.Keys && forall k :: k in found ==> k.mailbox == mailbox
      modifies this`files, this`entries
      ensures Valid() && entries == AllGone(old(entries), found)
      ensures files == old(files) - FilesOf(old(entries), found)
      ensures Lists(expunged, mailbox, found)
    {
      hide Consistent, Lists, FilesOf, AllGone;
      expunged := [];
      ListsNone(mailbox);
      FilesOfNone(files, entries);
      AllGoneNone(entries);
      var left := found;
      assert found - left == {};
      while left != {}
        invariant left <= found
        invariant Valid() && entries == AllGone(old(entries), found - left)
        invariant files == old(files) - FilesOf(old(entries), found - left)
        invariant Lists(expunged, mailbox, found - left)
        decreases |left|
      {
        var k :| k in left;
        ghost var done := found - left;
        AllGoneMore(old(entries), done, k);
        FilesOfMore(old(files), old(entries), done, k);
        RemoveOne(k);
        assert found - (left - {k}) == done + {k};
        left := left - {k};
        ListsOneMore(expunged, mailbox, done, k);
        expunged := expunged + [k.uid];
      }
      assert found - left == found;
    }

    /** The file of one message, in whichever of the two directories it lies. */
    method RemoveOne(k: MsgId)
      requires Valid() && k in entries
      modifies this`files, this`entries
      ensures Valid() && entries == old(entries)[k := Gone(old(entries)[k])]
      ensures files == old(files) - {FileOf(k, old(entries)[k])}
    {
      hide Consistent, Numbered, Agree;
      ConsistentMeans(rows, files, entries, mailboxes, history);
      LoseKeeps(rows, files, entries, mailboxes, history, k);
      FileFound(rows, files, entries, k);
      OneOfBoth(files, k, entries[k]);
      files := files - {Path(k.mailbox, Cur, rows[k].key)} - {Path(k.mailbox, New, rows[k].key)};
      entries := entries[k := Gone(entries[k])];
    }
  }

  // ----- lists and sets of flags -----

  method ListOf(s: set<Flag>) returns (list: seq<Flag>)
    ensures FlagSet(list) == s && |list| == |s|
  {
    list := [];
    var left := s;
    while left != {}
      invariant left <= s && FlagSet(list) == s - left && |list| + |left| == |s|
      decreases |left|
    {
      var f :| f in left;
      left := left - {f};
      ListMore(list, f);
      list := list + [f];
    }
  }

  lemma ListMore(list: seq<Flag>, f: Flag)
    ensures FlagSet(list + [f]) == FlagSet(list) + {f}
  {
  }

  method Without(list: seq<Flag>, remove: set<Flag>) returns (kept: seq<Flag>)
    ensures FlagSet(kept) == FlagSet(list) - remove
  {
    kept := [];
    for i := 0 to |list|
      invariant FlagSet(kept) == FlagSet(list[..i]) - remove
    {
      assert list[..i + 1] == list[..i] + [list[i]];
      ListMore(list[..i], list[i]);
      ListMore(kept, list[i]);
      if list[i] !in remove {
        kept := kept + [list[i]];
      }
    }
    assert list[..|list|] == list;
  }

  /** What is read back after an update is the union or the difference of the sets, whether or not
      the file could be renamed, as long as all the flags are allowed. */
  lemma UpdateReadsBack(k: MsgId, e: Entry, newFlags: seq<Flag>, f: SetFaults)
    requires forall g :: g in newFlags ==> Allowed(g)
    ensures Flags(FlagsSet(k, e, newFlags, f).row.flags) == newFlags
  {
    hide Join, Flags, FileName, BaseOf, FlagsHalfSet;
    FlagsRoundTrip(newFlags);
    forall g | g in newFlags ensures ',' !in g && g != "" {
      AllowedPlain(g);
    }
    assert newFlags == [""] ==> "" in newFlags;
  }

  lemma AllowedPlain(g: Flag)
    requires Allowed(g)
    ensures ',' !in g && g != ""
  {
  }

  // ----- expunge -----

  function MarkedIds(entries: map<MsgId, Entry>, mailbox: int): set<MsgId> {
    set k | k in entries && k.mailbox == mailbox && Marked(entries[k].row.flags)
  }

  /** The messages an expunge removes are those that have the \Deleted flag. */
  lemma MarkedMeansDeleted(flags: seq<Flag>)
    requires forall g :: g in flags ==> Allowed(g)
    ensures Marked(Join(flags)) <==> DELETED in flags
  {
    hide Like, Join, Allowed;
    LikeIsMembership(flags, DELETED);
  }

  function MarkedKeys(rows: map<MsgId, Row>, mailbox: int): set<MsgId> {
    set k | k in rows && k.mailbox == mailbox && Marked(rows[k].flags)
  }

  /** What the DELETE of an expunge leaves. */
  function Unmarked(rows: map<MsgId, Row>, mailbox: int): map<MsgId, Row> {
    map k | k in rows && !(k.mailbox == mailbox && Marked(rows[k].flags)) :: rows[k]
  }

  lemma MarkedRows(rows: map<MsgId, Row>, entries: map<MsgId, Entry>, mailbox: int)
    requires rows.Keys == entries.Keys && forall k :: k in rows ==> rows[k] == entries[k].row
    ensures MarkedKeys(rows, mailbox) == MarkedIds(entries, mailbox)
    ensures Unmarked(rows, mailbox) == rows - MarkedKeys(rows, mailbox)
    ensures MarkedKeys(rows, mailbox) == {} ==> rows - MarkedKeys(rows, mailbox) == rows
  {
    hide Marked;
  }

  /** A file lies in cur or in new, so removing both names removes it alone. */
  lemma OneOfBoth(files: map<Path, string>, k: MsgId, e: Entry)
    requires e.sub != Tmp
    requires Path(k.mailbox, Cur, e.row.key) in files <==> e.sub == Cur && !e.gone
    requires Path(k.mailbox, New, e.row.key) in files <==> e.sub == New && !e.gone
    ensures files - {Path(k.mailbox, Cur, e.row.key)} - {Path(k.mailbox, New, e.row.key)} == files - {FileOf(k, e)}
  {
  }

  /** These messages have lost their files. */
  function AllGone(entries: map<MsgId, Entry>, ids: set<MsgId>): map<MsgId, Entry> {
    map k | k in entries :: if k in ids then Gone(entries[k]) else entries[k]
  }

  lemma AllGoneNone(entries: map<MsgId, Entry>)
    ensures AllGone(entries, {}) == entries
  {
  }

  lemma AllGoneMore(entries: map<MsgId, Entry>, ids: set<MsgId>, k: MsgId)
    requires k in entries && k !in ids
    ensures var some := AllGone(entries, ids);
            k in some && some[k] == entries[k] && some[k := Gone(some[k])] == AllGone(entries, ids + {k})
  {
  }

  lemma AllGoneMeans(entries: map<MsgId, Entry>, ids: set<MsgId>)
    ensures forall k :: k in ids && k in AllGone(entries, ids) ==> AllGone(entries, ids)[k].gone
    ensures AllGone(entries, ids) - ids == entries - ids
  {
  }

  /** The files of these messages. */
  function FilesOf(entries: map<MsgId, Entry>, ids: set<MsgId>): set<Path> {
    set k | k in ids && k in entries :: FileOf(k, entries[k])
  }

  lemma FilesOfNone(files: map<Path, string>, entries: map<MsgId, Entry>)
    ensures files - FilesOf(entries, {}) == files
  {
  }

  lemma FilesOfMore(files: map<Path, string>, entries: map<MsgId, Entry>, ids: set<MsgId>, k: MsgId)
    requires k in entries
    ensures files - FilesOf(entries, ids) - {FileOf(k, entries[k])} == files - FilesOf(entries, ids + {k})
  {
    assert FilesOf(entries, ids + {k}) == FilesOf(entries, ids) + {FileOf(k, entries[k])};
  }

  lemma MinusKeys(entries: map<MsgId, Entry>, gone: set<MsgId>)
    ensures (entries - gone).Keys == entries.Keys - gone
  {
  }

  /** The uids, each once, of these messages of the mailbox. */
  ghost predicate Lists(uids: seq<int>, mailbox: int, ids: set<MsgId>) {
    && (forall uid :: uid in uids <==> MsgId(mailbox, uid) in ids)
    && (forall i, j :: 0 <= i < j < |uids| ==> uids[i] != uids[j])
  }

  lemma ListsNone(mailbox: int)
    ensures Lists([], mailbox, {})
  {
  }

  lemma ListsOneMore(uids: seq<int>, mailbox: int, ids: set<MsgId>, k: MsgId)
    requires Lists(uids, mailbox, ids) && k !in ids && k.mailbox == mailbox
    ensures Lists(uids + [k.uid], mailbox, ids + {k})
  {
    assert k == MsgId(mailbox, k.uid);
  }

  lemma UidsListed(expunged: seq<int>, found: set<MsgId>, mailbox: int)
    requires Lists(expunged, mailbox, found)
    requires forall k :: k in found ==> k.mailbox == mailbox
    ensures expunged == [] ==> found == {}
  {
    forall k | k in found ensures k.uid in expunged {
      assert k == MsgId(mailbox, k.uid);
    }
  }

  lemma MarkedHere(rows: map<MsgId, Row>, mailbox: int)
    ensures forall k :: k in MarkedKeys(rows, mailbox) ==> k.mailbox == mailbox
    ensures MarkedKeys(rows, mailbox) <= rows.Keys
  {
  }

  lemma UidsFewer(ids: set<MsgId>, fewer: set<MsgId>, mailboxes: map<int, int>)
    requires UidsBelow(ids, mailboxes) && fewer <= ids
    ensures UidsBelow(fewer, mailboxes)
  {
  }

  lemma KeyNamed(entries: map<MsgId, Entry>, k: MsgId)
    requires EntriesOk(entries) && k in entries
    ensures NamedOk(entries[k].row.key)
  {
    assert EntryOk(entries[k]);
  }

  // ----- facts about rows and files the methods use -----

  lemma AgreeKeys(rows: map<MsgId, Row>, files: map<Path, string>, entries: map<MsgId, Entry>)
    requires Agree(rows, files, entries)
    ensures rows.Keys == entries.Keys && EntriesOk(entries)
    ensures forall k :: k in rows ==> rows[k] == entries[k].row
    ensures forall k :: k in entries ==> Present(files, k, entries[k])
  {
  }

  lemma FileFound(rows: map<MsgId, Row>, files: map<Path, string>, entries: map<MsgId, Entry>, k: MsgId)
    requires Agree(rows, files, entries) && k in entries
    ensures k in rows && rows[k].key == entries[k].row.key
    ensures Path(k.mailbox, Cur, rows[k].key) in files <==> entries[k].sub == Cur && !entries[k].gone
    ensures Path(k.mailbox, New, rows[k].key) in files <==> entries[k].sub == New && !entries[k].gone
    ensures entries[k].sub != Tmp
  {
    hide Agree;
    AgreeKeys(rows, files, entries);
    OneFileEach(rows, files, entries, k, Cur);
    OneFileEach(rows, files, entries, k, New);
  }

  lemma BaseKnown(entries: map<MsgId, Entry>, key: string, flags: seq<Flag>)
    requires FreshBase(entries, key)
    ensures BaseOf(key) == key && BaseOf(FileName(key, flags)) == key
    ensures FreshBase(entries, BaseOf(key)) && FreshBase(entries, BaseOf(FileName(key, flags))) && IsBase(key)
  {
    BaseOfName(key, flags);
  }

  lemma NewPaths(rows: map<MsgId, Row>, files: map<Path, string>, entries: map<MsgId, Entry>, mailbox: int, key: string,
                 flags: seq<Flag>)
    requires Agree(rows, files, entries) && FreshBase(entries, key)
    ensures Path(mailbox, Tmp, key) !in files && Path(mailbox, SubFor(flags), FileName(key, flags)) !in files
    ensures IsBase(key) && FreshBase(entries, BaseOf(FileName(key, flags)))
  {
    hide Agree, FreshBase, FileName, BaseOf, IsBase;
    BaseKnown(entries, key, flags);
    FreshPath(rows, files, entries, Path(mailbox, Tmp, key));
    FreshPath(rows, files, entries, Path(mailbox, SubFor(flags), FileName(key, flags)));
  }

  lemma NamedBase(key: string)
    requires NamedOk(key)
    ensures IsBase(BaseOf(key)) && BaseOf(BaseOf(key)) == BaseOf(key)
  {
    BaseOfName(BaseOf(key), []);
  }

  /** A file that is there holds the body of the message whose base it has. */
  lemma FoundByBase(rows: map<MsgId, Row>, files: map<Path, string>, entries: map<MsgId, Entry>, p: Path)
    requires Agree(rows, files, entries) && p in files
    ensures forall k :: k in entries && BaseOf(entries[k].row.key) == BaseOf(p.name) ==>
              !entries[k].gone && files[p] == entries[k].body
    ensures exists k :: k in entries && k.mailbox == p.mailbox && BaseOf(entries[k].row.key) == BaseOf(p.name)
  {
    hide BaseOf, IsBase;
    var j :| j in entries && Owns(j, entries[j], p);
    assert Present(files, j, entries[j]);
    forall k | k in entries && BaseOf(entries[k].row.key) == BaseOf(p.name)
      ensures !entries[k].gone && files[p] == entries[k].body
    {
      assert k == j;
    }
  }

  lemma PrefixFound(rows: map<MsgId, Row>, files: map<Path, string>, entries: map<MsgId, Entry>, p: Path, base: string)
    requires Agree(rows, files, entries) && p in files && IsBase(base)
    ensures HasPrefix(p.name, base) <==> BaseOf(p.name) == base
  {
    var j :| j in entries && Owns(j, entries[j], p);
    assert EntryOk(entries[j]);
    var flags :| p.name == FileName(BaseOf(p.name), flags);
    PrefixIsBase(base, BaseOf(p.name), flags);
  }

  lemma NotFound(rows: map<MsgId, Row>, files: map<Path, string>, entries: map<MsgId, Entry>, mailbox: int, base: string)
    requires Agree(rows, files, entries) && IsBase(base)
    requires forall p :: p in files && p.mailbox == mailbox && (p.sub == Cur || p.sub == New) ==> !HasPrefix(p.name, base)
    ensures forall k :: k in entries && k.mailbox == mailbox && !entries[k].gone ==> BaseOf(entries[k].row.key) != base
  {
    hide BaseOf, IsBase;
    forall k | k in entries && k.mailbox == mailbox && !entries[k].gone ensures BaseOf(entries[k].row.key) != base {
      assert Present(files, k, entries[k]) && EntryOk(entries[k]);
      PrefixFound(rows, files, entries, FileOf(k, entries[k]), base);
    }
  }

  /** Where a renamed file goes nothing lies yet. */
  lemma PlaceFree(rows: map<MsgId, Row>, files: map<Path, string>, entries: map<MsgId, Entry>, k: MsgId, flags: seq<Flag>)
    requires Agree(rows, files, entries) && k in entries && FileOf(k, Renamed(entries[k], flags)) != FileOf(k, entries[k])
    ensures FileOf(k, Renamed(entries[k], flags)) !in files
  {
    hide BaseOf, IsBase, HasOwner, Present, FileName;
    var newPath := FileOf(k, Renamed(entries[k], flags));
    assert EntryOk(entries[k]);
    RenamedOk(entries[k], flags);
    if newPath in files { OneOwner(entries, k, newPath); }
  }
}

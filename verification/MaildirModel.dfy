/** Names, rows and files of the Maildir store, and what it means that they agree
    (internal/storage/maildir/maildir.go). */
module MaildirModel {
  import opened Wrappers
  import opened Strings
  import opened MaildirFlags

  // ----- names -----

  predicate IsHex(c: char) {
    '0' <= c <= '9' || 'a' <= c <= 'f'
  }

  /** A generated key: a time in decimal, a dot, 32 hexadecimal digits. */
  predicate IsBase(b: string) {
    && |b| > 33
    && (forall i | 0 <= i < |b| - 33 :: IsDigit(b[i]))
    && b[|b| - 33] == '.'
    && (forall i | |b| - 32 <= i < |b| :: IsHex(b[i]))
  }

  predicate HexDigits(hex: string) {
    |hex| == 32 && forall i | 0 <= i < 32 :: IsHex(hex[i])
  }

  /** The key generateMaildirKey makes of the time and 16 random bytes. */
  function GeneratedKey(nano: nat, hex: string): string {
    Decimal(nano) + "." + hex
  }

  lemma GeneratedIsBase(nano: nat, hex: string)
    requires HexDigits(hex)
    ensures IsBase(GeneratedKey(nano, hex))
  {
  }

  /** The name of a file: the base, and the letters of the flags that have one. */
  function FileName(base: string, flags: seq<Flag>): string {
    if Suffix(flags) == "" then base else base + ":2," + Suffix(flags)
  }

  function BaseOf(name: string): string {
    var at := Index(name, ":2,");
    if at.None? then name else name[..at.value]
  }

  lemma NoColon(b: string)
    requires IsBase(b)
    ensures ':' !in b
  {
    forall i | 0 <= i < |b| ensures b[i] != ':' {
      assert i < |b| - 33 || i == |b| - 33 || i >= |b| - 32;
    }
  }

  lemma {:induction false} NoInfo(b: string)
    requires ':' !in b
    ensures Index(b, ":2,") == None
  {
    if b != "" {
      assert b[0] in b && b == [b[0]] + b[1..];
      NoInfo(b[1..]);
    }
  }

  lemma {:induction false} InfoAt(s: string, n: nat)
    requires n <= |s| && ':' !in s[..n] && HasPrefix(s[n..], ":2,")
    ensures Index(s, ":2,") == Some(n)
  {
    hide Contains;
    if n == 0 {
      assert s[0..] == s;
    } else {
      assert s[0] in s[..n];
      assert s[..n][1..] == s[1..][..n - 1] && s[n..] == s[1..][n - 1..];
      InfoAt(s[1..], n - 1);
    }
  }

  lemma BaseOfInfo(base: string, info: string)
    requires ':' !in base
    ensures BaseOf(base) == base && BaseOf(base + ":2," + info) == base
  {
    NoInfo(base);
    var s := base + ":2," + info;
    assert s[..|base|] == base && s[|base|..] == ":2," + info;
    InfoAt(s, |base|);
  }

  lemma BaseOfName(base: string, flags: seq<Flag>)
    requires IsBase(base)
    ensures BaseOf(FileName(base, flags)) == base && BaseOf(base) == base
  {
    hide BaseOf, IsBase;
    NoColon(base);
    BaseOfInfo(base, Suffix(flags));
  }

  lemma FirstDot(b: string)
    requires IsBase(b)
    ensures b[|b| - 33] == '.' && forall i | 0 <= i < |b| - 33 :: b[i] != '.'
  {
  }

  /** Bases are prefix-free: a name starts with a base only if that is its own base. */
  lemma PrefixIsBase(base: string, other: string, flags: seq<Flag>)
    requires IsBase(base) && IsBase(other)
    ensures HasPrefix(FileName(other, flags), base) <==> base == other
  {
    var name := FileName(other, flags);
    FirstDot(base);
    FirstDot(other);
    assert other <= name;
    if HasPrefix(name, base) {
      assert forall t | 0 <= t < |other| :: name[t] == other[t];
      assert forall t | 0 <= t < |base| :: name[t] == base[t];
      assert name[|base| - 33] == '.' && name[|other| - 33] == '.';
      assert |base| == |other|;
    }
  }

  // ----- rows and files -----

  datatype Sub = Cur | New | Tmp

  datatype Path = Path(mailbox: int, sub: Sub, name: string)

  datatype MsgId = MsgId(mailbox: int, uid: int)

  datatype Row = Row(key: string, size: int, date: int, flags: string)

  /** A message: its row, where its file lies, the bytes once appended, and whether the file is gone
      because a deletion failed half way. */
  datatype Entry = Entry(row: Row, sub: Sub, body: string, gone: bool)

  function FileOf(k: MsgId, e: Entry): Path {
    Path(k.mailbox, e.sub, e.row.key)
  }

  /** A base, with or without letters. */
  ghost predicate NamedOk(name: string) {
    IsBase(BaseOf(name)) && exists flags :: name == FileName(BaseOf(name), flags)
  }

  /** The file is in cur exactly when its name has the letter of a seen message. */
  ghost predicate EntryOk(e: Entry) {
    NamedOk(e.row.key) && !e.sub.Tmp? && (e.sub.Cur? <==> 'S' in e.row.key) && e.row.size == |e.body|
  }

  ghost predicate EntriesOk(entries: map<MsgId, Entry>) {
    && (forall k :: k in entries ==> EntryOk(entries[k]))
    && (forall j, k :: j in entries && k in entries && BaseOf(entries[j].row.key) == BaseOf(entries[k].row.key) ==> j == k)
  }

  predicate Present(files: map<Path, string>, k: MsgId, e: Entry) {
    e.gone || (FileOf(k, e) in files && files[FileOf(k, e)] == e.body)
  }

  predicate Owns(k: MsgId, e: Entry, p: Path) {
    !e.gone && FileOf(k, e) == p
  }

  predicate HasOwner(entries: map<MsgId, Entry>, p: Path) {
    exists k :: k in entries && Owns(k, entries[k], p)
  }

  /** The table holds exactly the rows of the messages, and the directories exactly the files of
      those that have theirs. */
  ghost predicate Agree(rows: map<MsgId, Row>, files: map<Path, string>, entries: map<MsgId, Entry>) {
    && EntriesOk(entries)
    && rows.Keys == entries.Keys
    && (forall k :: k in rows ==> rows[k] == entries[k].row)
    && (forall k :: k in entries ==> Present(files, k, entries[k]))
    && (forall p :: p in files ==> HasOwner(entries, p))
  }

  /** The key of no message has this base. */
  predicate Unused(entries: map<MsgId, Entry>, base: string) {
    forall k :: k in entries ==> BaseOf(entries[k].row.key) != base
  }

  predicate FreshBase(entries: map<MsgId, Entry>, base: string) {
    IsBase(base) && Unused(entries, base)
  }

  /** Two files with the bases of messages are the same only for the same message. */
  lemma OneOwner(entries: map<MsgId, Entry>, k: MsgId, p: Path)
    requires EntriesOk(entries) && k in entries && HasOwner(entries, p) && BaseOf(p.name) == BaseOf(entries[k].row.key)
    ensures p == FileOf(k, entries[k]) && !entries[k].gone
  {
    var j :| j in entries && Owns(j, entries[j], p);
    assert j == k;
  }

  /** Every row has one file, in cur if its key has the letter of a seen message and in new if not,
      under its key and with the bytes appended, unless its file is gone. */
  lemma OneFileEach(rows: map<MsgId, Row>, files: map<Path, string>, entries: map<MsgId, Entry>, k: MsgId, sub: Sub)
    requires Agree(rows, files, entries) && k in rows
    ensures !entries[k].sub.Tmp? && (entries[k].sub.Cur? <==> 'S' in rows[k].key)
    ensures Path(k.mailbox, sub, rows[k].key) in files <==> sub == entries[k].sub && !entries[k].gone
    ensures !entries[k].gone ==> files[Path(k.mailbox, entries[k].sub, rows[k].key)] == entries[k].body
  {
    hide HasOwner, BaseOf, IsBase;
    var p := Path(k.mailbox, sub, rows[k].key);
    assert Present(files, k, entries[k]) && EntryOk(entries[k]);
    if p in files { OneOwner(entries, k, p); }
  }

  /** And there is no other file. */
  lemma NoStrays(rows: map<MsgId, Row>, files: map<Path, string>, entries: map<MsgId, Entry>, p: Path) returns (k: MsgId)
    requires Agree(rows, files, entries) && p in files
    ensures k in rows && k.mailbox == p.mailbox && rows[k].key == p.name && p.sub == entries[k].sub && !entries[k].gone
  {
    hide Present, EntriesOk;
    k :| k in entries && Owns(k, entries[k], p);
  }

  lemma OwnerBase(entries: map<MsgId, Entry>, p: Path)
    requires HasOwner(entries, p)
    ensures exists k :: k in entries && BaseOf(entries[k].row.key) == BaseOf(p.name)
  {
    var k :| k in entries && Owns(k, entries[k], p);
    assert BaseOf(entries[k].row.key) == BaseOf(p.name);
  }

  lemma FreshPath(rows: map<MsgId, Row>, files: map<Path, string>, entries: map<MsgId, Entry>, p: Path)
    requires Agree(rows, files, entries) && FreshBase(entries, BaseOf(p.name))
    ensures p !in files
  {
    hide HasOwner, BaseOf, Present;
    if p in files { OwnerBase(entries, p); }
  }

  // ----- how the operations change the messages -----

  function SubFor(flags: seq<Flag>): Sub {
    if SEEN in flags then Cur else New
  }

  function Appended(base: string, flags: seq<Flag>, date: int, body: string): Entry {
    Entry(Row(FileName(base, flags), |body|, date, Join(flags)), SubFor(flags), body, false)
  }

  /** New flags in the row alone, or in the name of the file too. */
  function Flagged(e: Entry, flags: seq<Flag>): Entry {
    e.(row := e.row.(flags := Join(flags)))
  }

  function Renamed(e: Entry, flags: seq<Flag>): Entry {
    e.(row := e.row.(flags := Join(flags), key := FileName(BaseOf(e.row.key), flags)), sub := SubFor(flags))
  }

  /** A name has an S exactly for a seen message: bases have none. */
  lemma SeenLetter(base: string, flags: seq<Flag>)
    requires IsBase(base)
    ensures 'S' in FileName(base, flags) <==> SEEN in flags
  {
    SuffixDecodes(flags);
    forall i | 0 <= i < |base| ensures base[i] != 'S' {
      assert i < |base| - 33 || i == |base| - 33 || i >= |base| - 32;
    }
  }

  lemma AppendedOk(base: string, flags: seq<Flag>, date: int, body: string)
    requires IsBase(base)
    ensures EntryOk(Appended(base, flags, date, body)) && BaseOf(Appended(base, flags, date, body).row.key) == base
  {
    hide BaseOf, IsBase, FileName;
    BaseOfName(base, flags);
    SeenLetter(base, flags);
    assert FileName(base, flags) == FileName(BaseOf(FileName(base, flags)), flags);
  }

  lemma RenamedOk(e: Entry, flags: seq<Flag>)
    requires EntryOk(e)
    ensures EntryOk(Renamed(e, flags)) && BaseOf(Renamed(e, flags).row.key) == BaseOf(e.row.key)
  {
    var base := BaseOf(e.row.key);
    hide BaseOf, IsBase, FileName;
    BaseOfName(base, flags);
    SeenLetter(base, flags);
    assert FileName(base, flags) == FileName(BaseOf(FileName(base, flags)), flags);
  }

  lemma OwnerStays(entries: map<MsgId, Entry>, entries': map<MsgId, Entry>, p: Path, changed: MsgId)
    requires HasOwner(entries, p) && changed in entries ==> !Owns(changed, entries[changed], p)
    requires forall k :: k in entries && k != changed ==> k in entries' && entries'[k] == entries[k]
    ensures HasOwner(entries, p) ==> HasOwner(entries', p)
  {
    if HasOwner(entries, p) {
      var k :| k in entries && Owns(k, entries[k], p);
      assert k in entries' && Owns(k, entries'[k], p);
    }
  }

  lemma OwnerHere(entries: map<MsgId, Entry>, k: MsgId)
    requires k in entries && !entries[k].gone
    ensures HasOwner(entries, FileOf(k, entries[k]))
  {
    assert Owns(k, entries[k], FileOf(k, entries[k]));
  }

  lemma FilesApart(entries: map<MsgId, Entry>, j: MsgId, k: MsgId, e: Entry)
    requires j in entries && FreshBase(entries, BaseOf(e.row.key))
    ensures FileOf(j, entries[j]) != FileOf(k, e)
  {
    assert BaseOf(entries[j].row.key) != BaseOf(e.row.key);
  }

  /** A message is added: its row and its file. */
  lemma AgreeAdd(rows: map<MsgId, Row>, files: map<Path, string>, entries: map<MsgId, Entry>, k: MsgId, e: Entry)
    requires Agree(rows, files, entries) && k !in entries && EntryOk(e) && !e.gone
    requires FreshBase(entries, BaseOf(e.row.key))
    ensures Agree(rows[k := e.row], files[FileOf(k, e) := e.body], entries[k := e])
  {
    hide EntryOk, BaseOf, IsBase, HasOwner;
    var entries', files' := entries[k := e], files[FileOf(k, e) := e.body];
    OwnerHere(entries', k);
    forall p | p in files ensures HasOwner(entries', p) {
      OwnerStays(entries, entries', p, k);
    }
    forall j | j in entries ensures Present(files', j, entries[j]) {
      FilesApart(entries, j, k, e);
      assert Present(files, j, entries[j]);
    }
  }

  lemma OthersFile(entries: map<MsgId, Entry>, j: MsgId, k: MsgId)
    requires EntriesOk(entries) && j in entries && k in entries && j != k
    ensures FileOf(j, entries[j]) != FileOf(k, entries[k])
  {
  }

  /** A message goes: its row and its file. */
  lemma AgreeDrop(rows: map<MsgId, Row>, files: map<Path, string>, entries: map<MsgId, Entry>, k: MsgId)
    requires Agree(rows, files, entries) && k in entries
    ensures Agree(rows - {k}, files - {FileOf(k, entries[k])}, entries - {k})
  {
    hide EntryOk, BaseOf, IsBase, HasOwner;
    var gone := FileOf(k, entries[k]);
    forall j | j in entries && j != k ensures Present(files - {gone}, j, entries[j]) {
      OthersFile(entries, j, k);
      assert Present(files, j, entries[j]);
    }
    forall p | p in files && p != gone ensures HasOwner(entries - {k}, p) {
      OwnerStays(entries, entries - {k}, p, k);
    }
  }

  /** Its file alone goes. */
  function Gone(e: Entry): Entry {
    e.(gone := true)
  }

  lemma GoneOk(entries: map<MsgId, Entry>, k: MsgId)
    requires EntriesOk(entries) && k in entries
    ensures EntriesOk(entries[k := Gone(entries[k])])
  {
    hide BaseOf, IsBase;
    assert EntryOk(entries[k]);
  }

  lemma AgreeLose(rows: map<MsgId, Row>, files: map<Path, string>, entries: map<MsgId, Entry>, k: MsgId)
    requires Agree(rows, files, entries) && k in entries
    ensures Agree(rows, files - {FileOf(k, entries[k])}, entries[k := Gone(entries[k])])
  {
    hide EntriesOk, EntryOk, BaseOf, IsBase, HasOwner;
    var lost, entries' := FileOf(k, entries[k]), entries[k := Gone(entries[k])];
    GoneOk(entries, k);
    forall j | j in entries && j != k ensures Present(files - {lost}, j, entries[j]) {
      OthersFile(entries, j, k);
      assert Present(files, j, entries[j]);
    }
    forall p | p in files && p != lost ensures HasOwner(entries', p) {
      OwnerStays(entries, entries', p, k);
    }
  }

  lemma FlaggedOk(entries: map<MsgId, Entry>, k: MsgId, flags: seq<Flag>)
    requires EntriesOk(entries) && k in entries
    ensures EntriesOk(entries[k := Flagged(entries[k], flags)])
  {
    hide BaseOf, IsBase;
    assert EntryOk(entries[k]);
  }

  /** Only the flags of a row change. */
  lemma AgreeFlag(rows: map<MsgId, Row>, files: map<Path, string>, entries: map<MsgId, Entry>, k: MsgId, flags: seq<Flag>)
    requires Agree(rows, files, entries) && k in entries
    ensures var e := Flagged(entries[k], flags); Agree(rows[k := e.row], files, entries[k := e])
  {
    hide EntriesOk, BaseOf, IsBase, HasOwner;
    var e := Flagged(entries[k], flags);
    FlaggedOk(entries, k, flags);
    assert Present(files, k, entries[k]);
    forall p | p in files ensures HasOwner(entries[k := e], p) {
      if Owns(k, e, p) { OwnerHere(entries[k := e], k); } else { OwnerStays(entries, entries[k := e], p, k); }
    }
  }

  lemma AgreeMeans(rows: map<MsgId, Row>, files: map<Path, string>, entries: map<MsgId, Entry>)
    requires Agree(rows, files, entries)
    ensures EntriesOk(entries) && rows.Keys == entries.Keys
  {
  }

  lemma RenamedFresh(entries: map<MsgId, Entry>, k: MsgId, flags: seq<Flag>)
    requires EntriesOk(entries) && k in entries
    ensures FreshBase(entries - {k}, BaseOf(Renamed(entries[k], flags).row.key))
    ensures EntryOk(Renamed(entries[k], flags)) && Renamed(entries[k], flags).gone == entries[k].gone
  {
    hide BaseOf, IsBase;
    assert EntryOk(entries[k]);
    RenamedOk(entries[k], flags);
  }

  /** The file is renamed and the row follows. */
  lemma AgreeRename(rows: map<MsgId, Row>, files: map<Path, string>, entries: map<MsgId, Entry>, k: MsgId, flags: seq<Flag>)
    requires Agree(rows, files, entries) && k in entries && !entries[k].gone
    ensures var e := Renamed(entries[k], flags);
            Agree(rows[k := e.row], (files - {FileOf(k, entries[k])})[FileOf(k, e) := e.body], entries[k := e])
  {
    hide Agree, FreshBase, EntryOk, Renamed, BaseOf, EntriesOk;
    var old_, e := entries[k], Renamed(entries[k], flags);
    AgreeMeans(rows, files, entries);
    RenamedFresh(entries, k, flags);
    AgreeDrop(rows, files, entries, k);
    AgreeAdd(rows - {k}, files - {FileOf(k, old_)}, entries - {k}, k, e);
    assert (rows - {k})[k := e.row] == rows[k := e.row];
    assert (entries - {k})[k := e] == entries[k := e];
  }
}

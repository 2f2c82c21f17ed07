/** A script that files a message and redirects it, from its text to what becomes of the message. */
module FiledAndRedirected {
  import opened Wrappers
  import opened SieveSyntax
  import opened SieveLexer
  import opened SieveGrammar
  import opened SieveParser
  import opened SievePrinter
  import opened SieveWritten
  import opened SieveConditions
  import opened SieveVacation
  import opened SieveExec
  import opened SieveOutcome
  import opened LocalDelivery

  /** A script that files every message into a folder and redirects it. */
  function FileAndRedirect(folder: string, address: string): Script {
    Script([], [Rule([TrueCondition], [FileIntoAction(folder), RedirectAction(address)], true, false)])
  }

  /** Such a script as the server is given it, in whatever way and layout: a text it accepts, and in
      healthy surroundings no message is ever filed by it: each is only queued for the address. */
  lemma FiledMessageLost(s: Surroundings, folders: set<string>, records: Responses, data: string, folder: string,
                         address: string, ws: seq<WStatement>, style: Style)
    requires WellWritten(ws, style) && ScriptOf(ws) == FileAndRedirect(folder, address)
    requires Healthy(s, folders, data) && s.sieve == Some(Active(Print(ws, style)))
    ensures var e := Delivered(s, folders, records, data);
            e.error.None? && e.stored.None? && e.forwarded == Routable([address])
  {
    hide ParseText, Delivered, Print, ScriptOf, WellWritten, Healthy, Routable, EffectiveActions, KeptAtEnd, LastReject,
         Redirects;
    ParsePrint(ws, style);
    ActionsTaken(folder, address, s.env.msg);
    StoredExactly(s, folders, records, data);
  }

  /** One way to write it: if true { fileinto "folder"; redirect "address"; } */
  function Written(folder: string, address: string): seq<WStatement> {
    [WIf(Single(WTrue), [WPlain(FileIntoAction(folder), true), WPlain(RedirectAction(address), true)])]
  }

  /** Every folder and address that can be written at all can be written so within the limits. */
  lemma FileAndRedirectWritten(folder: string, address: string)
    requires folder != "" && address != "" && Printable(folder) && Printable(address)
    ensures WellWritten(Written(folder, address), PLAIN_STYLE)
    ensures ScriptOf(Written(folder, address)) == FileAndRedirect(folder, address)
  {
    hide Printable, PutStatements, GoodStyle, WellWritten;
    WrittenMeans(folder, address);
    WrittenGood(folder, address);
    PlainStyleGood(PutStatements(Written(folder, address)));
    WrittenShort(folder, address);
    WellWrittenBecause(Written(folder, address), PLAIN_STYLE);
  }

  lemma WellWrittenBecause(ws: seq<WStatement>, style: Style)
    requires GoodStatements(ws) && GoodStyle(style, PutStatements(ws))
    requires |Print(ws, style)| <= MAX_SCRIPT_SIZE && Length(PutStatements(ws)) < MAX_TOKENS
    ensures WellWritten(ws, style)
  {
  }

  lemma WrittenMeans(folder: string, address: string)
    ensures ScriptOf(Written(folder, address)) == FileAndRedirect(folder, address)
  {
    var ws := Written(folder, address);
    var actions := ws[0].actions;
    assert ws[1..] == [] && actions[1..] == [WPlain(RedirectAction(address), true)] && actions[1..][1..] == [];
    assert ActionsOf(actions[1..]) == [RedirectAction(address)];
    assert ActionsOf(actions) == [FileIntoAction(folder), RedirectAction(address)];
  }

  lemma WrittenGood(folder: string, address: string)
    requires folder != "" && address != "" && Printable(folder) && Printable(address)
    ensures GoodStatements(Written(folder, address))
  {
    hide Printable, NextType, PutStatements, PutActions;
    var ws := Written(folder, address);
    var actions := ws[0].actions;
    assert ws[1..] == [] && actions[1..] == [WPlain(RedirectAction(address), true)] && actions[1..][1..] == [];
    assert GoodActions(actions[1..], Then(Mark('}'), PutStatements([])));
    assert GoodActions(actions, Then(Mark('}'), PutStatements([])));
  }

  lemma {:induction false} PlainStyleGood(t: Text)
    ensures GoodStyle(PLAIN_STYLE, t)
  {
    if t.Then? {
      PlainStyleGood(t.rest);
      PlainGap();
    }
  }

  lemma PlainGap()
    ensures Laid([Blank(' ')], false, false) == " " && Laid([Blank(' ')], true, true) == " "
  {
    assert [Blank(' ')][1..] == [];
  }

  lemma WrittenShort(folder: string, address: string)
    requires Printable(folder) && Printable(address)
    ensures |Print(Written(folder, address), PLAIN_STYLE)| <= MAX_SCRIPT_SIZE
    ensures Length(PutStatements(Written(folder, address))) < MAX_TOKENS
  {
    hide Render, Length, Spell, Escape, Laid;
    var ws := Written(folder, address);
    var end := Then(Mark('}'), Text.End);
    var body := Then(Mark('{'), PutActions(ws[0].actions, end));
    assert ws[1..] == [];
    assert PutStatements(ws) == Then(Word("if"), Then(Word("true"), body));
    Short(Mark('}'), Text.End);
    ActionsShort(folder, address, end);
    Short(Mark('{'), PutActions(ws[0].actions, end));
    Short(Word("true"), body);
    Short(Word("if"), Then(Word("true"), body));
    NothingWritten();
  }

  lemma NothingWritten()
    ensures |Render(Text.End, PLAIN_STYLE)| == 1 && Length(Text.End) == 0
  {
    PlainGap();
  }

  lemma ActionsShort(folder: string, address: string, t: Text)
    requires Printable(folder) && Printable(address)
    ensures var text := PutActions(Written(folder, address)[0].actions, t);
            && |Render(text, PLAIN_STYLE)| <= 2 * MAX_STRING_LENGTH + 100 + |Render(t, PLAIN_STYLE)|
            && Length(text) == Length(t) + 6
  {
    hide Render, Length, Spell, Escape, Laid;
    var actions := Written(folder, address)[0].actions;
    assert actions[1..] == [WPlain(RedirectAction(address), true)] && actions[1..][1..] == [];
    var redirect := Then(Word("redirect"), Then(Quoted(address), Then(Mark(';'), t)));
    Short(Mark(';'), t);
    Short(Quoted(address), Then(Mark(';'), t));
    Short(Word("redirect"), Then(Quoted(address), Then(Mark(';'), t)));
    Short(Mark(';'), redirect);
    Short(Quoted(folder), Then(Mark(';'), redirect));
    Short(Word("fileinto"), Then(Quoted(folder), Then(Mark(';'), redirect)));
    assert PutActions(actions[1..], t) == redirect;
    assert PutActions(actions, t) == Then(Word("fileinto"), Then(Quoted(folder), Then(Mark(';'), redirect)));
  }

  /** A lexeme adds its own length and a blank. */
  lemma Short(l: Lexeme, t: Text)
    ensures |Render(Then(l, t), PLAIN_STYLE)| == 1 + |Spell(l)| + |Render(t, PLAIN_STYLE)|
    ensures Length(Then(l, t)) == Length(t) + 1
    ensures l.Mark? ==> |Spell(l)| == 1
    ensures l.Word? ==> |Spell(l)| == |l.word|
    ensures l.Quoted? ==> |Spell(l)| == |Escape(l.value)| + 2
  {
    PlainGap();
  }

  lemma ActionsTaken(folder: string, address: string, msg: Message)
    ensures var actions := EffectiveActions(FileAndRedirect(folder, address).rules, msg);
            && DiscardAction !in actions && LastReject(actions).None?
            && !KeptAtEnd(actions) && Redirects(actions) == [address]
  {
    hide Evaluate;
    var file, redirect := FileIntoAction(folder), RedirectAction(address);
    var rules := FileAndRedirect(folder, address).rules;
    assert rules[0].actions == [file, redirect] && redirect in [file, redirect];
    AlwaysMatches(msg);
    assert EffectiveActions(rules, msg) == [file, redirect];
    assert [file, redirect][..1] == [file] && [file][..0] == [];
    assert LastReject([file]) == None && Redirects([file]) == [] && !KeptAtEnd([file, redirect]);
  }

  lemma AlwaysMatches(msg: Message)
    ensures RuleMatches([TrueCondition], true, msg)
  {
  }
}

/** The script that the form of the server suggests, from its text, comments and all, to where the
    messages go. The proof first shows that the text is one way to write three statements and two
    tokens that say nothing; what parsing it gives follows from the general law, and so does what
    a delivery makes of it. */
module SampleScript {
  import opened Wrappers
  import opened Strings
  import opened SieveSyntax
  import opened SieveLexer
  import opened SieveGrammar
  import opened SieveParser
  import opened SievePrinter
  import opened SieveReparse
  import opened SieveWritten
  import opened SieveConditions
  import opened SieveMeanings
  import opened SieveVacation
  import opened SieveExec
  import opened SieveOutcome
  import opened LocalDelivery

  function Comment(text: string): string {
    "#" + text + "\n"
  }

  const SAMPLE: string :=
    Comment(" Sieve script example") + ("require \"fileinto\";"
    + ("\n\n" + Comment(" Move newsletters to folder")
    + ("if header :contains" + (" \"Subject\" \"[Newsletter]\" {"
    + ("\n    fileinto \"Newsletters\";"
    + ("\n    stop;"
    + ("\n}"
    + ("\n\n" + Comment(" Keep everything else in INBOX") + "keep;"))))))))

  const TEST := HeaderCondition(["Subject"], ["[Newsletter]"], "contains", "", false, "")

  /** What it means; the keep at the end stands outside any rule and says nothing. */
  const MEANING := Script(["fileinto"], [Rule([TEST], [FileIntoAction("Newsletters"), StopAction], true, false)])

  // ----- how it is written -----

  const REQUIRE := WRequire(Bare("fileinto"), true)
  const NEWSLETTERS := WHeader(false, [Match("contains")], Bare("Subject"), Bare("[Newsletter]"))
  const FILE := WPlain(FileIntoAction("Newsletters"), true)
  const STOP := WPlain(StopAction, true)
  const RULE := WIf(Single(NEWSLETTERS), [FILE, STOP])
  const STATEMENTS := [REQUIRE, RULE, WOther(Word("keep")), WOther(Mark(';'))]

  /** The layout, by the number of lexemes from the end. */
  function Gap(n: nat): seq<Piece> {
    if n == 18 then [Line(" Sieve script example")]
    else if n == 15 then [Blank('\n'), Blank('\n'), Line(" Move newsletters to folder")]
    else if n == 8 || n == 5 then [Blank('\n'), Blank(' '), Blank(' '), Blank(' '), Blank(' ')]
    else if n == 3 then [Blank('\n')]
    else if n == 2 then [Blank('\n'), Blank('\n'), Line(" Keep everything else in INBOX")]
    else if n == 17 || n == 14 || n == 13 || n == 11 || n == 10 || n == 9 || n == 7 then [Blank(' ')]
    else []
  }

  const LAYOUT := Style(Gap, (_, word) => word)

  lemma StatementsCons(w: WStatement, ws: seq<WStatement>)
    ensures ScriptOf([w] + ws) ==
            Script(StatementOf(w).require_ + ScriptOf(ws).require_, StatementOf(w).rules + ScriptOf(ws).rules)
    ensures PutStatements([w] + ws) == PutStatement(w, PutStatements(ws))
    ensures GoodStatements([w] + ws) <==> GoodStatement(w, PutStatements(ws)) && GoodStatements(ws)
  {
    assert ([w] + ws)[1..] == ws;
  }

  lemma ActionsCons(w: WAction, ws: seq<WAction>, t: Text)
    ensures ActionsOf([w] + ws) == ActionOf(w) + ActionsOf(ws)
    ensures PutActions([w] + ws, t) == PutAction(w, PutActions(ws, t))
    ensures GoodActions([w] + ws, t) <==> GoodAction(w, NextType(PutActions(ws, t))) && GoodActions(ws, t)
  {
    assert ([w] + ws)[1..] == ws;
  }

  function AfterRule(): Text { Then(Word("keep"), Then(Mark(';'), Text.End)) }
  function AfterActions(): Text { Then(Mark('}'), AfterRule()) }
  function AfterFile(): Text { Then(Word("stop"), Then(Mark(';'), AfterActions())) }
  function AfterBrace(): Text { Then(Word("fileinto"), Then(Quoted("Newsletters"), Then(Mark(';'), AfterFile()))) }
  function AfterTest(): Text { Then(Mark('{'), AfterBrace()) }
  function AfterIf(): Text {
    Then(Word("header"), Then(Mark(':'), Then(Word("contains"),
      Then(Quoted("Subject"), Then(Quoted("[Newsletter]"), AfterTest())))))
  }
  function AfterRequire(): Text { Then(Word("if"), AfterIf()) }
  function Whole(): Text { Then(Word("require"), Then(Quoted("fileinto"), Then(Mark(';'), AfterRequire()))) }

  lemma WrittenActions()
    ensures PutActions([FILE, STOP], AfterActions()) == AfterBrace()
    ensures ActionsOf([FILE, STOP]) == [FileIntoAction("Newsletters"), StopAction]
  {
    assert [FILE, STOP] == [FILE] + ([STOP] + []);
    ActionsCons(FILE, [STOP] + [], AfterActions());
    ActionsCons(STOP, [], AfterActions());
    assert PutActions([], AfterActions()) == AfterActions() && ActionsOf([]) == [];
  }

  lemma WrittenTest()
    ensures PutTest(NEWSLETTERS, AfterTest()) == AfterIf() && TestOf(NEWSLETTERS) == TEST
  {
    var mods := [Match("contains")];
    var t := Then(Quoted("Subject"), Then(Quoted("[Newsletter]"), AfterTest()));
    assert mods[1..] == [] && PutModifiers([], t) == t;
    assert PutModifiers(mods, t) == Then(Mark(':'), Then(Word("contains"), t));
    var m := Mods("", "", "").(matchType := "contains");
    assert ModsAfter(m, []) == m;
    assert ModsAfter(Mods("", "", ""), mods) == m;
  }

  lemma Written()
    ensures PutStatements(STATEMENTS) == Whole() && ScriptOf(STATEMENTS) == MEANING
  {
    hide PutTest, PutActions, TestOf, ActionsOf, PutStatements, ScriptOf;
    var keep, semi := WOther(Word("keep")), WOther(Mark(';'));
    assert STATEMENTS == [REQUIRE] + ([RULE] + ([keep] + ([semi] + [])));
    WrittenActions();
    WrittenTest();
    NoStatements();
    StatementsCons(semi, []);
    StatementsCons(keep, [semi] + []);
    StatementsCons(RULE, [keep] + ([semi] + []));
    StatementsCons(REQUIRE, [RULE] + ([keep] + ([semi] + [])));
    assert PutStatements([keep] + ([semi] + [])) == AfterRule();
    assert PutStatement(RULE, AfterRule()) == AfterRequire();
  }

  lemma NoStatements()
    ensures PutStatements([]) == Text.End && ScriptOf([]) == Script([], []) && GoodStatements([])
  {
  }

  // ----- its text -----

  lemma RenderStep(l: Lexeme, t: Text)
    ensures Length(Then(l, t)) == 1 + Length(t)
    ensures Render(Then(l, t), LAYOUT) == Laid(Gap(1 + Length(t)), true, true) + (Spell(l) + Render(t, LAYOUT))
  {
  }

  lemma {:induction false} EscapePlain(v: string)
    requires forall c :: c in v ==> c != '"' && c != '\\'
    ensures Escape(v) == v
  {
    if v != "" {
      assert v == [v[0]] + v[1..] && v[0] in v;
      assert forall c :: c in v[1..] ==> c in v;
      EscapePlain(v[1..]);
    }
  }

  lemma StringsGood()
    ensures Printable("fileinto") && Printable("Subject") && Printable("[Newsletter]") && Printable("Newsletters")
    ensures Escape("Newsletters") == "Newsletters" && Escape("fileinto") == "fileinto"
    ensures Escape("Subject") == "Subject" && Escape("[Newsletter]") == "[Newsletter]"
  {
    hide Escape, Printable;
    PlainPrintable("fileinto");
    PlainPrintable("Subject");
    PlainPrintable("[Newsletter]");
    PlainPrintable("Newsletters");
  }

  lemma PlainPrintable(v: string)
    requires |v| <= MAX_STRING_LENGTH && forall c :: c in v ==> c != '"' && c != '\\' && c != '#' && c != '/'
    ensures Printable(v) && Escape(v) == v
  {
    EscapePlain(v);
    forall k | 0 <= k < |v| ensures v[k..][0] != '/' {
      assert v[k..][0] == v[k] && v[k] in v;
    }
  }

  lemma Gaps()
    ensures Laid([], true, true) == "" && Laid([Blank(' ')], true, true) == " " && Laid([Blank('\n')], true, true) == "\n"
    ensures Laid([Blank('\n'), Blank(' '), Blank(' '), Blank(' '), Blank(' ')], true, true) == "\n    "
  {
    assert [Blank(' ')][1..] == [] && [Blank('\n')][1..] == [];
    LaidCons(Blank(' '), [Blank(' ')]);
    LaidCons(Blank(' '), [Blank(' '), Blank(' ')]);
    LaidCons(Blank(' '), [Blank(' '), Blank(' '), Blank(' ')]);
    LaidCons(Blank('\n'), [Blank(' '), Blank(' '), Blank(' '), Blank(' ')]);
  }

  lemma LaidCons(p: Piece, gap: seq<Piece>)
    ensures Laid([p] + gap, true, true) == Shown(p, true, true) + Laid(gap, true, true)
  {
    assert ([p] + gap)[1..] == gap;
  }

  lemma Lengths()
    ensures Length(AfterRule()) == 2 && Length(AfterActions()) == 3 && Length(AfterFile()) == 5
    ensures Length(AfterBrace()) == 8 && Length(AfterTest()) == 9 && Length(AfterIf()) == 14
    ensures Length(AfterRequire()) == 15 && Length(Whole()) == 18
  {
  }

  lemma Glue(a: string, b: string, c: string, d: string, e: string, s: string)
    ensures a + (b + (c + (d + (e + s)))) == (a + b + c + d + e) + s
  {
  }

  /** The keep that stands outside any rule, and the end of the rule. */
  lemma LastLines()
    ensures Render(AfterActions(), LAYOUT) == "\n}" + ("\n\n" + Comment(" Keep everything else in INBOX") + "keep;")
  {
    hide Render, Laid, Length, Gap, Comment;
    Lengths();
    NothingRendered();
    GapsHere();
    var semi := Then(Mark(';'), Text.End);
    RenderStep(Mark(';'), Text.End);
    RenderStep(Word("keep"), semi);
    RenderStep(Mark('}'), AfterRule());
    assert Render(semi, LAYOUT) == ";";
    assert Render(AfterRule(), LAYOUT) == "\n\n" + Comment(" Keep everything else in INBOX") + "keep;";
  }

  lemma NothingRendered()
    ensures Render(Text.End, LAYOUT) == "" && Length(Text.End) == 0
  {
  }

  lemma LaidBelow(text: string)
    ensures Laid([Blank('\n'), Blank('\n'), Line(text)], true, true) == "\n\n" + Comment(text)
  {
    hide Comment;
    LaidComment(text);
    LaidCons(Blank('\n'), [Line(text)]);
    LaidCons(Blank('\n'), [Blank('\n'), Line(text)]);
    assert [Blank('\n')] + [Line(text)] == [Blank('\n'), Line(text)];
    assert [Blank('\n')] + [Blank('\n'), Line(text)] == [Blank('\n'), Blank('\n'), Line(text)];
  }

  lemma LaidComment(text: string)
    ensures Laid([Line(text)], true, true) == Comment(text)
  {
    assert [Line(text)][1..] == [];
  }

  /** What stands before each lexeme. */
  lemma GapsHere()
    ensures forall n | n in {1, 4, 6, 12, 16} :: Laid(Gap(n), true, true) == ""
    ensures forall n | n in {7, 9, 10, 11, 13, 14, 17} :: Laid(Gap(n), true, true) == " "
    ensures Laid(Gap(3), true, true) == "\n" && Laid(Gap(5), true, true) == Laid(Gap(8), true, true) == "\n    "
    ensures Laid(Gap(2), true, true) == "\n\n" + Comment(" Keep everything else in INBOX")
    ensures Laid(Gap(15), true, true) == "\n\n" + Comment(" Move newsletters to folder")
    ensures Laid(Gap(18), true, true) == Comment(" Sieve script example")
  {
    hide Laid, Comment;
    Gaps();
    LaidBelow(" Keep everything else in INBOX");
    LaidBelow(" Move newsletters to folder");
    LaidComment(" Sieve script example");
  }

  lemma StopLine()
    ensures Render(AfterFile(), LAYOUT) == "\n    stop;" + Render(AfterActions(), LAYOUT)
  {
    hide Render, Laid, Length, Gap, Comment;
    GapsHere();
    Lengths();
    RenderStep(Mark(';'), AfterActions());
    RenderStep(Word("stop"), Then(Mark(';'), AfterActions()));
    Glue("\n    ", "stop", "", ";", "", Render(AfterActions(), LAYOUT));
    StopLiteral();
  }

  lemma StopLiteral()
    ensures "\n    " + "stop" + "" + ";" + "" == "\n    stop;"
  {
  }

  lemma FileLine()
    ensures Render(AfterBrace(), LAYOUT) == "\n    fileinto \"Newsletters\";" + Render(AfterFile(), LAYOUT)
  {
    hide Render, Laid, Length, Escape, Gap, Comment;
    GapsHere();
    Lengths();
    StringsGood();
    var t := Then(Mark(';'), AfterFile());
    RenderStep(Mark(';'), AfterFile());
    RenderStep(Quoted("Newsletters"), t);
    RenderStep(Word("fileinto"), Then(Quoted("Newsletters"), t));
    Glue("\n    ", "fileinto", " ", "\"" + "Newsletters" + "\"", "" + ";", Render(AfterFile(), LAYOUT));
    FileLiteral();
  }

  lemma FileLiteral()
    ensures "\n    " + "fileinto" + " " + ("\"" + "Newsletters" + "\"") + ("" + ";") == "\n    fileinto \"Newsletters\";"
  {
  }

  lemma RequireLine()
    ensures Render(Whole(), LAYOUT) ==
            Comment(" Sieve script example") + ("require \"fileinto\";" + Render(AfterRequire(), LAYOUT))
  {
    hide Render, Laid, Length, Escape, Gap, Comment;
    GapsHere();
    Lengths();
    StringsGood();
    var t := Then(Mark(';'), AfterRequire());
    RenderStep(Mark(';'), AfterRequire());
    RenderStep(Quoted("fileinto"), t);
    RenderStep(Word("require"), Then(Quoted("fileinto"), t));
    Glue("require", " ", "\"" + "fileinto" + "\"", "", ";", Render(AfterRequire(), LAYOUT));
    RequireLiteral();
  }

  lemma RequireLiteral()
    ensures "require" + " " + ("\"" + "fileinto" + "\"") + "" + ";" == "require \"fileinto\";"
  {
  }

  lemma TestEnd()
    ensures Render(Then(Quoted("Subject"), Then(Quoted("[Newsletter]"), AfterTest())), LAYOUT)
            == " \"Subject\" \"[Newsletter]\" {" + Render(AfterBrace(), LAYOUT)
  {
    hide Render, Laid, Length, Escape, Gap, Comment;
    GapsHere();
    Lengths();
    StringsGood();
    RenderStep(Mark('{'), AfterBrace());
    RenderStep(Quoted("[Newsletter]"), AfterTest());
    RenderStep(Quoted("Subject"), Then(Quoted("[Newsletter]"), AfterTest()));
    Glue(" ", "\"" + "Subject" + "\"", " ", "\"" + "[Newsletter]" + "\"", " ", "{" + Render(AfterBrace(), LAYOUT));
    Glue(" ", "\"" + "Subject" + "\"", " ", "\"" + "[Newsletter]" + "\"", " " + "{", Render(AfterBrace(), LAYOUT));
    StringsLiteral();
  }

  lemma StringsLiteral()
    ensures " " + ("\"" + "Subject" + "\"") + " " + ("\"" + "[Newsletter]" + "\"") + (" " + "{")
            == " \"Subject\" \"[Newsletter]\" {"
  {
  }

  lemma TestLine()
    ensures Render(AfterRequire(), LAYOUT)
            == "\n\n" + Comment(" Move newsletters to folder")
               + ("if header :contains" + (" \"Subject\" \"[Newsletter]\" {" + Render(AfterBrace(), LAYOUT)))
  {
    hide Render, Laid, Length, Escape, Gap, Comment;
    GapsHere();
    Lengths();
    TestEnd();
    var strings := Then(Quoted("Subject"), Then(Quoted("[Newsletter]"), AfterTest()));
    var colon := Then(Mark(':'), Then(Word("contains"), strings));
    RenderStep(Word("contains"), strings);
    RenderStep(Mark(':'), Then(Word("contains"), strings));
    RenderStep(Word("header"), colon);
    RenderStep(Word("if"), AfterIf());
    var s := Render(strings, LAYOUT);
    Glue("if", " ", "header", " ", ":" + "contains", s);
    TestWords();
  }

  lemma TestWords()
    ensures "if" + " " + "header" + " " + (":" + "contains") == "if header :contains"
  {
  }

  lemma Printed()
    ensures Print(STATEMENTS, LAYOUT) == SAMPLE
  {
    hide Render, PutStatements, Comment;
    Written();
    RequireLine();
    TestLine();
    FileLine();
    StopLine();
    LastLines();
  }

  // ----- it can be read -----

  lemma FirstGood()
    ensures GoodPiece(Line(" Sieve script example"))
  {
  }

  lemma SecondGood()
    ensures GoodPiece(Line(" Move newsletters to folder"))
  {
  }

  lemma ThirdGood()
    ensures GoodPiece(Line(" Keep everything else in INBOX"))
  {
  }

  lemma BlanksGood()
    ensures GoodPiece(Blank(' ')) && GoodPiece(Blank('\n'))
  {
  }

  lemma GapsGood(n: nat)
    ensures forall p :: p in Gap(n) ==> GoodPiece(p)
  {
    hide GoodPiece;
    FirstGood();
    SecondGood();
    ThirdGood();
    BlanksGood();
  }

  lemma StyleGood()
    ensures GoodStyle(LAYOUT, Whole())
  {
    hide Gap, Laid, Length, Comment, Parted;
    WordsParted();
    forall n: nat, p | p in LAYOUT.gap(n) ensures GoodPiece(p) { GapsGood(n); }
  }

  lemma PartedStep(l: Lexeme, t: Text)
    requires Parted(LAYOUT, t)
    requires t.Then? && RunsOn(l) && RunsOn(t.first) ==> Laid(Gap(Length(t)), false, false) != ""
    ensures Parted(LAYOUT, Then(l, t))
  {
  }

  lemma LastParted()
    ensures Parted(LAYOUT, AfterFile())
  {
    hide Parted;
    NoneParted();
    PartedStep(Mark(';'), Text.End);
    PartedStep(Word("keep"), Then(Mark(';'), Text.End));
    PartedStep(Mark('}'), AfterRule());
    PartedStep(Mark(';'), AfterActions());
    PartedStep(Word("stop"), Then(Mark(';'), AfterActions()));
  }

  lemma NoneParted()
    ensures Parted(LAYOUT, Text.End)
  {
  }

  lemma MiddleParted()
    ensures Parted(LAYOUT, AfterTest())
  {
    hide Parted;
    LastParted();
    PartedStep(Mark(';'), AfterFile());
    PartedStep(Quoted("Newsletters"), Then(Mark(';'), AfterFile()));
    PartedStep(Word("fileinto"), Then(Quoted("Newsletters"), Then(Mark(';'), AfterFile())));
    PartedStep(Mark('{'), AfterBrace());
  }

  lemma TestParted()
    ensures Parted(LAYOUT, AfterIf())
  {
    hide Parted;
    MiddleParted();
    var strings := Then(Quoted("Subject"), Then(Quoted("[Newsletter]"), AfterTest()));
    PartedStep(Quoted("[Newsletter]"), AfterTest());
    PartedStep(Quoted("Subject"), Then(Quoted("[Newsletter]"), AfterTest()));
    PartedStep(Word("contains"), strings);
    PartedStep(Mark(':'), Then(Word("contains"), strings));
    PartedStep(Word("header"), Then(Mark(':'), Then(Word("contains"), strings)));
  }

  /** Only `if header` has two words in a row. */
  lemma WordsParted()
    ensures Parted(LAYOUT, Whole())
  {
    hide Parted, Laid, Length, Gap;
    Lengths();
    TestParted();
    BlankParts();
    PartedStep(Word("if"), AfterIf());
    PartedStep(Mark(';'), AfterRequire());
    PartedStep(Quoted("fileinto"), Then(Mark(';'), AfterRequire()));
    PartedStep(Word("require"), Then(Quoted("fileinto"), Then(Mark(';'), AfterRequire())));
  }

  lemma BlankParts()
    ensures Laid(Gap(14), false, false) != ""
  {
  }

  lemma WordsGood()
    ensures PlainWord("require") && PlainWord("if") && PlainWord("header") && PlainWord("contains") && PlainWord("fileinto")
    ensures PlainWord("stop") && PlainWord("keep")
    ensures TokenOf(Word("keep")).typ == TKeep && TokenOf(Word("stop")).typ == TStop && TokenOf(Word("if")).typ == TIf
  {
    IfRequireWords();
    HeaderWords();
    ModifierWords("contains");
    FileRedirectWords();
    KeepStopWords();
  }

  lemma ActionsGood(t: Text)
    ensures GoodActions([FILE, STOP], Then(Mark('}'), t))
  {
    hide PlainWord, Printable, WordToken, PutActions, Escape, NextType;
    StringsGood();
    var end := Then(Mark('}'), t);
    assert [FILE, STOP] == [FILE] + ([STOP] + []);
    ActionsCons(FILE, [STOP] + [], end);
    ActionsCons(STOP, [], end);
  }

  lemma TestGood()
    ensures GoodConditions(Single(NEWSLETTERS))
  {
    hide Printable, Escape;
    StringsGood();
    assert GoodModifier(Match("contains"));
  }

  lemma RuleGood(t: Text)
    ensures GoodStatement(RULE, t)
  {
    hide GoodConditions, GoodActions;
    TestGood();
    ActionsGood(t);
  }

  lemma RequireGood(t: Text)
    ensures GoodStatement(REQUIRE, t)
  {
    hide PlainWord, Printable, WordToken;
    StringsGood();
  }

  lemma KeepGood(t: Text)
    ensures GoodStatement(WOther(Word("keep")), t)
  {
    hide PlainWord, WordToken;
    WordsGood();
  }

  lemma SemiGood(t: Text)
    ensures GoodStatement(WOther(Mark(';')), t)
  {
  }

  lemma StatementsGood()
    ensures GoodStatements(STATEMENTS)
  {
    hide PutStatements, GoodStatement, GoodStatements;
    var keep, semi := WOther(Word("keep")), WOther(Mark(';'));
    assert STATEMENTS == [REQUIRE] + ([RULE] + ([keep] + ([semi] + [])));
    SemiGood(PutStatements([]));
    KeepGood(PutStatements([semi] + []));
    RuleGood(PutStatements([keep] + ([semi] + [])));
    RequireGood(PutStatements([RULE] + ([keep] + ([semi] + []))));
    NoStatements();
    StatementsCons(semi, []);
    StatementsCons(keep, [semi] + []);
    StatementsCons(RULE, [keep] + ([semi] + []));
    StatementsCons(REQUIRE, [RULE] + ([keep] + ([semi] + [])));
  }

  /** The server accepts its own sample and reads it as it is meant. */
  lemma SampleParses()
    ensures ParseText(SAMPLE) == Ok(MEANING)
  {
    hide ParseText, ScriptOf, PutStatements, GoodStatements, GoodStyle, Print;
    Written();
    Printed();
    StatementsGood();
    StyleGood();
    Lengths();
    ParsePrint(STATEMENTS, LAYOUT);
  }

  // ----- where the messages go -----

  /** With the server's sample as the active script, in healthy surroundings, a message goes to the
      folder Newsletters (to INBOX if that folder is missing and cannot be made) exactly when its
      subject has [Newsletter] in it, in any case; every other message goes to INBOX. */
  lemma SampleFiles(s: Surroundings, folders: set<string>, records: Responses, data: string)
    requires Healthy(s, folders, data) && s.sieve == Some(Active(SAMPLE))
    ensures var e := Delivered(s, folders, records, data);
            var newsletter := exists before, middle, after ::
                                Around(s.env.msg.subject, before, middle, after, "[Newsletter]");
            && e.error.None? && e.forwarded == []
            && e.stored == Some(if newsletter && ("Newsletters" in folders || !s.createFails) then "Newsletters" else INBOX)
  {
    hide ParseText, Delivered, Healthy, Routable, KeptAtEnd, LastReject, Redirects, LastFolder, Evaluate, Around;
    SampleParses();
    SubjectTested(s.env.msg);
    SampleTakes(s.env.msg);
    FiledNotDropped();
    NothingRoutable();
    HealthyMeans(s, folders, data);
    StoredExactly(s, folders, records, data);
    FiledWhere(s, folders, records, data);
  }

  lemma HealthyMeans(s: Surroundings, folders: set<string>, data: string)
    requires Healthy(s, folders, data)
    ensures !s.cancelled && s.alias.Local? && s.user.Some? && INBOX in folders
  {
  }

  lemma SubjectTested(msg: Message)
    ensures Evaluate(TEST, msg) <==>
            exists before, middle, after :: Around(msg.subject, before, middle, after, "[Newsletter]")
  {
    hide MatchValue, Evaluate, Around;
    assert Lower("Subject") == "subject";
    EnvelopeMatches(TEST, msg);
    ContainsMeans(msg.subject, "[Newsletter]");
    assert "[Newsletter]" in TEST.values;
  }

  lemma SampleTakes(msg: Message)
    ensures EffectiveActions(MEANING.rules, msg) ==
            if Evaluate(TEST, msg) then [FileIntoAction("Newsletters"), StopAction] else []
  {
    hide Evaluate;
    assert MEANING.rules[1..] == [] && EffectiveActions([], msg) == [];
    assert TEST in MEANING.rules[0].conditions;
    assert FileIntoAction("Newsletters") in MEANING.rules[0].actions;
  }

  lemma FiledNotDropped()
    ensures var actions := [FileIntoAction("Newsletters"), StopAction];
            && DiscardAction !in actions && LastReject(actions).None? && Redirects(actions) == []
            && LastFolder(actions) == Some("Newsletters")
    ensures LastReject([]).None? && Redirects([]) == [] && LastFolder([]) == None
  {
    var actions := [FileIntoAction("Newsletters"), StopAction];
    assert actions[..1] == [FileIntoAction("Newsletters")] && actions[..1][..0] == [];
    assert Redirects([]) == [] && Redirects(actions[..1]) == [] && LastReject(actions[..1]).None?;
  }
}

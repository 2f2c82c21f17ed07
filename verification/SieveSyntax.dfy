/** Scripts, tokens, limits and errors of the Sieve subset (internal/sieve). */
module SieveSyntax {
  import opened Wrappers

  const MAX_SCRIPT_SIZE := 1024 * 1024
  const MAX_TOKENS := 100000
  const MAX_STRING_LENGTH := 10000
  const MAX_ARRAY_SIZE := 1000
  const MAX_PARSE_DEPTH := 100
  const MAX_CONDITION_DEPTH := 50
  const MAX_VACATION_DAYS := 365
  const MAX_SIZE_VALUE := 1024 * 1024 * 1024 * 10
  const MAX_NUMBER_LENGTH := 100
  const MAX_WORD_LENGTH := 1000
  const MAX_MODIFIERS := 10
  const MAX_VACATION_PARAMS := 20
  const DEFAULT_VACATION_DAYS := 7

  datatype TokenType =
    | TEOF | TRequire | TIf | TElsif | TElse | TAllof | TAnyof | TNot | TTrue | TFalse
    | TAddress | THeader | TSize | TExists | TContains | TIs | TMatches | TOver | TUnder
    | TKeep | TFileinto | TRedirect | TDiscard | TReject | TVacation | TStop
    | TString | TNumber
    | TLBracket | TRBracket | TLBrace | TRBrace | TLParen | TRParen | TSemi | TComma | TColon

  datatype Token = Token(typ: TokenType, val: string)

  const EOF_TOKEN := Token(TEOF, "")

  /** Which of the checks that report ErrInvalidInput fired; the source returns one error for all. */
  datatype Guard = LexIterations | NumberLength | WordLength | ParseIterations | Modifiers | VacationParams

  datatype Error =
    | ScriptTooLarge
    | TooManyTokens
    | StringTooLong
    | ArrayTooLarge
    | NestingTooDeep
    | InvalidInput(guard: Guard)
    | UnterminatedString
    | InvalidSize
    | BadNumber
    | VacationDaysRange
    | ExpectedBrace(got: TokenType)
    | MissingFolder
    | MissingAddress

  /** NilCondition is Go's nil interface value. */
  datatype Condition =
    | NilCondition
    | TrueCondition
    | FalseCondition
    | NotCondition(inner: Condition)
    | HeaderCondition(headers: seq<string>, values: seq<string>, matchType: string,
                      comparator: string, isAddress: bool, addressPart: string)
    | SizeCondition(size: int, over: bool)
    | ExistsCondition(names: seq<string>)

  datatype Action =
    | NilAction
    | KeepAction
    | FileIntoAction(folder: string)
    | RedirectAction(address: string)
    | DiscardAction
    | RejectAction(message: string)
    | StopAction
    | VacationAction(days: int, subject: string, from: string, body: string, addresses: seq<string>)

  datatype Rule = Rule(conditions: seq<Condition>, actions: seq<Action>, allOf: bool, stop: bool)

  datatype Script = Script(require_: seq<string>, rules: seq<Rule>)

  /** The keyword table of the tokenizer. */
  const KEYWORDS: map<string, TokenType> := map[
    "require" := TRequire,
    "if" := TIf,
    "elsif" := TElsif,
    "else" := TElse,
    "allof" := TAllof,
    "anyof" := TAnyof,
    "not" := TNot,
    "true" := TTrue,
    "false" := TFalse,
    "address" := TAddress,
    "header" := THeader,
    "size" := TSize,
    "exists" := TExists,
    "contains" := TContains,
    "is" := TIs,
    "matches" := TMatches,
    "over" := TOver,
    "under" := TUnder,
    "keep" := TKeep,
    "fileinto" := TFileinto,
    "redirect" := TRedirect,
    "discard" := TDiscard,
    "reject" := TReject,
    "vacation" := TVacation,
    "stop" := TStop
  ]

  /** The single-character tokens. */
  function Punctuation(c: char): Option<TokenType>
  {
    match c
    case '[' => Some(TLBracket)
    case ']' => Some(TRBracket)
    case '{' => Some(TLBrace)
    case '}' => Some(TRBrace)
    case '(' => Some(TLParen)
    case ')' => Some(TRParen)
    case ';' => Some(TSemi)
    case ',' => Some(TComma)
    case ':' => Some(TColon)
    case _ => None
  }

  /** Number of nested negations at the top of a condition. */
  function Nots(c: Condition): nat {
    if c.NotCondition? then 1 + Nots(c.inner) else 0
  }
}

/**
 The words a launch of `bw` may carry (scripts/misura_m13_9.py, `BW_COMMANDS`, `VALUED` and
 `refused`), and the language they make.
 */
module Commands {
  import opened Options

  /** The words of one command: the objects it names, its options, and how many free values may follow
      the object. */
  datatype Words = Words(objects: set<string>, options: set<string>, values: nat)

  function CommandWords(command: string): Option<Words> {
    if command == "status" || command == "lock" || command == "logout" then Some(Words({}, {}, 0))
    else if command == "config" then Some(Words({"server"}, {}, 1))
    else if command == "login" || command == "unlock" then Some(Words({}, {"--raw"}, 0))
    else if command == "get" then Some(Words({"item", "uri", "username", "password"}, {}, 1))
    else if command == "create" then Some(Words({"item"}, {}, 0))
    else if command == "list" then Some(Words({"items"}, {"--url", "--search"}, 0))
    else if command == "delete" then Some(Words({"item"}, {"--permanent"}, 1))
    else None
  }

  const VALUED: set<string> := {"--url", "--search"}
  const VERSION := "--version"
  const SESSION := "--session"

  predicate IsDashed(word: string) {
    word != "" && word[0] == '-'
  }

  datatype Why =
    | SessionKeyInArgv
    | NotACommand(command: string)
    | NotAnOption(command: string, word: string)
    | TakesNoValue(command: string)
    | NotAnObject(command: string, named: seq<string>)
    | TooManyValues(command: string, object_: string)

  /** The words after the command that are neither options nor the values of one, or the option that
      is refused. */
  function PositionalIn(words: Words, rest: seq<string>): Result<seq<string>, string>
    decreases |rest|
  {
    if rest == [] then Ok([])
    else if IsDashed(rest[0]) then
      if rest[0] !in words.options then Err(rest[0])
      else PositionalIn(words, rest[if rest[0] in VALUED && |rest| > 1 then 2 else 1..])
    else
      match PositionalIn(words, rest[1..])
      case Err(word) => Err(word)
      case Ok(more) => Ok([rest[0]] + more)
  }

  lemma OneWordRead(words: Words, rest: seq<string>, i: nat)
    requires i < |rest|
    ensures var word, took := rest[i], if rest[i] in VALUED && i + 1 < |rest| then 2 else 1;
            PositionalIn(words, rest[i..])
            == if IsDashed(word) then
                 if word !in words.options then Err(word) else PositionalIn(words, rest[i + took..])
               else
                 match PositionalIn(words, rest[i + 1..])
                 case Err(refused) => Err(refused)
                 case Ok(more) => Ok([word] + more)
  {
    assert rest[i..][1..] == rest[i + 1..];
    assert i + 1 < |rest| ==> rest[i..][2..] == rest[i + 2..];
  }

  /** What is said of a command's words once its options are set aside. */
  function JudgedBy(command: string, words: Words, positional: seq<string>): Option<Why> {
    if words.objects == {} then
      if positional == [] then None else Some(TakesNoValue(command))
    else if positional == [] || positional[0] !in words.objects then
      Some(NotAnObject(command, if positional == [] then [] else positional[..1]))
    else if |positional| - 1 > words.values then Some(TooManyValues(command, positional[0]))
    else None
  }

  function RefusedFor(arguments: seq<string>, session: Option<string>): Option<Why> {
    if arguments == [VERSION] then None
    else if SESSION in arguments || (session.Some? && session.value in arguments) then Some(SessionKeyInArgv)
    else
      var command := if arguments == [] then "" else arguments[0];
      match CommandWords(command)
      case None => Some(NotACommand(command))
      case Some(words) =>
        match PositionalIn(words, if arguments == [] then [] else arguments[1..])
        case Err(word) => Some(NotAnOption(command, word))
        case Ok(positional) => JudgedBy(command, words, positional)
  }

  /** `refused`: one pass over the words, the value of a valued option taken with it. */
  method Refused(arguments: seq<string>, session: Option<string>) returns (why: Option<Why>)
    ensures why == RefusedFor(arguments, session)
    ensures why.None? <==> Speaks(arguments, session)
  {
    RefusesWhatIsNotSpoken(arguments, session);
    if arguments == [VERSION] {
      return None;
    }
    if SESSION in arguments || (session.Some? && session.value in arguments) {
      return Some(SessionKeyInArgv);
    }
    var command := if arguments == [] then "" else arguments[0];
    var found := CommandWords(command);
    if found.None? {
      return Some(NotACommand(command));
    }
    var words, rest := found.value, arguments[1..];
    var positional: seq<string> := [];
    var i := 0;
    ghost var whole := PositionalIn(words, rest);
    assert rest[0..] == rest;
    assert whole.Ok? ==> positional + whole.value == whole.value;
    while i < |rest|
      invariant 0 <= i <= |rest|
      invariant PositionalIn(words, rest)
             == match PositionalIn(words, rest[i..])
                case Err(word) => Err(word)
                case Ok(more) => Ok(positional + more)
    {
      var word := rest[i];
      OneWordRead(words, rest, i);
      if IsDashed(word) {
        if word !in words.options {
          return Some(NotAnOption(command, word));
        }
        i := if word in VALUED && i + 1 < |rest| then i + 2 else i + 1;
      } else {
        ghost var more := PositionalIn(words, rest[i + 1..]);
        assert more.Ok? ==> positional + ([word] + more.value) == positional + [word] + more.value;
        positional := positional + [word];
        i := i + 1;
      }
    }
    assert rest[i..] == [] && positional + [] == positional;
    why := JudgedBy(command, words, positional);
  }

  // ------------------------------------------------------------------------------------------
  // The language
  // ------------------------------------------------------------------------------------------

  /** A phrase of a command line: an option alone, one with its value, a last option whose value is
      missing, or a word of its own. */
  datatype Phrase =
    | Plain(option: string)
    | WithValue(option: string, value: string)
    | Dangling(option: string)
    | Word(word: string)

  function Spoken(phrase: Phrase): seq<string> {
    match phrase
    case Plain(option) => [option]
    case WithValue(option, value) => [option, value]
    case Dangling(option) => [option]
    case Word(word) => [word]
  }

  function Spelled(phrases: seq<Phrase>): seq<string> {
    if phrases == [] then [] else Spoken(phrases[0]) + Spelled(phrases[1..])
  }

  function FreeWords(phrases: seq<Phrase>): seq<string> {
    if phrases == [] then []
    else (if phrases[0].Word? then [phrases[0].word] else []) + FreeWords(phrases[1..])
  }

  predicate IsAllowed(words: Words, phrase: Phrase, last: bool) {
    match phrase
    case Plain(option) => IsDashed(option) && option in words.options && option !in VALUED
    case WithValue(option, _) => IsDashed(option) && option in words.options && option in VALUED
    case Dangling(option) => IsDashed(option) && option in words.options && option in VALUED && last
    case Word(word) => !IsDashed(word)
  }

  ghost predicate AreAllowed(words: Words, phrases: seq<Phrase>) {
    forall i :: 0 <= i < |phrases| ==> IsAllowed(words, phrases[i], i == |phrases| - 1)
  }

  /** The free words of a command: an object of its own and at most so many values, or nothing. */
  predicate FreeWordsFit(words: Words, free: seq<string>) {
    if words.objects == {} then free == []
    else free != [] && free[0] in words.objects && |free| <= words.values + 1
  }

  ghost predicate Speaks(arguments: seq<string>, session: Option<string>) {
    arguments == [VERSION] ||
    (&& SESSION !in arguments
     && (session.Some? ==> session.value !in arguments)
     && arguments != [] && CommandWords(arguments[0]).Some?
     && exists phrases ::
          && AreAllowed(CommandWords(arguments[0]).value, phrases)
          && Spelled(phrases) == arguments[1..]
          && FreeWordsFit(CommandWords(arguments[0]).value, FreeWords(phrases)))
  }

  /** The words of allowed phrases are taken apart as they were put together. */
  lemma {:induction false} PhrasesAreRead(words: Words, phrases: seq<Phrase>)
    requires AreAllowed(words, phrases)
    ensures PositionalIn(words, Spelled(phrases)) == Ok(FreeWords(phrases))
    decreases |phrases|
  {
    if phrases != [] {
      var first, more := phrases[0], phrases[1..];
      assert IsAllowed(words, first, 0 == |phrases| - 1);
      forall i | 0 <= i < |more|
        ensures IsAllowed(words, more[i], i == |more| - 1)
      {
        assert IsAllowed(words, phrases[i + 1], i + 1 == |phrases| - 1);
      }
      PhrasesAreRead(words, more);
      var spelled := Spelled(phrases);
      assert spelled == Spoken(first) + Spelled(more);
      assert spelled[|Spoken(first)|..] == Spelled(more);
      match first
      case Plain(option) => assert FreeWords(phrases) == FreeWords(more);
      case WithValue(option, value) => assert FreeWords(phrases) == FreeWords(more);
      case Dangling(option) => assert more == [] && FreeWords(phrases) == [] && spelled == [option];
      case Word(word) => assert spelled[0] == word && FreeWords(phrases) == [word] + FreeWords(more);
    }
  }

  /** Words that are taken apart are words of allowed phrases. */
  lemma {:induction false} WordsArePhrases(words: Words, rest: seq<string>) returns (phrases: seq<Phrase>)
    requires PositionalIn(words, rest).Ok?
    ensures AreAllowed(words, phrases) && Spelled(phrases) == rest
    ensures FreeWords(phrases) == PositionalIn(words, rest).value
    decreases |rest|
  {
    if rest == [] {
      phrases := [];
    } else {
      var first := if !IsDashed(rest[0]) then Word(rest[0])
                   else if rest[0] !in VALUED then Plain(rest[0])
                   else if |rest| > 1 then WithValue(rest[0], rest[1])
                   else Dangling(rest[0]);
      var after := rest[|Spoken(first)|..];
      var more := WordsArePhrases(words, after);
      phrases := [first] + more;
      assert phrases[1..] == more;
      assert rest == Spoken(first) + after;
      if first.Dangling? && more != [] {
        SpelledIsNotEmpty(more);
      }
      forall i | 0 <= i < |phrases|
        ensures IsAllowed(words, phrases[i], i == |phrases| - 1)
      {
        if i > 0 {
          assert IsAllowed(words, more[i - 1], i - 1 == |more| - 1);
        }
      }
    }
  }

  lemma SpelledIsNotEmpty(phrases: seq<Phrase>)
    requires phrases != []
    ensures Spelled(phrases) != []
  {
  }

  /** Nothing is refused exactly of the arguments that speak the language. */
  lemma RefusesWhatIsNotSpoken(arguments: seq<string>, session: Option<string>)
    ensures RefusedFor(arguments, session).None? <==> Speaks(arguments, session)
  {
    if arguments != [VERSION] && arguments != [] && CommandWords(arguments[0]).Some? {
      var words := CommandWords(arguments[0]).value;
      if RefusedFor(arguments, session).None? {
        var phrases := WordsArePhrases(words, arguments[1..]);
      }
      if phrases :| AreAllowed(words, phrases) && Spelled(phrases) == arguments[1..]
                    && FreeWordsFit(words, FreeWords(phrases))
      {
        PhrasesAreRead(words, phrases);
      }
    }
  }

  // ------------------------------------------------------------------------------------------
  // What is never among the words
  // ------------------------------------------------------------------------------------------

  lemma {:induction false} OnlyTheOption(words: Words, rest: seq<string>, i: nat)
    requires words.options !! VALUED && PositionalIn(words, rest) == Ok([]) && i < |rest|
    ensures rest[i] in words.options
    decreases |rest|
  {
    if i > 0 {
      OnlyTheOption(words, rest[1..], i - 1);
    }
  }

  /** Of every accepted `login` and `unlock`, however long, each further word is `--raw`: there is no
      room for a password. */
  lemma LoginCarriesOnlyRaw(arguments: seq<string>, session: Option<string>, i: nat)
    requires RefusedFor(arguments, session).None?
    requires 0 < i < |arguments| && arguments[0] in {"login", "unlock"}
    ensures arguments[i] == "--raw"
  {
    var words := CommandWords(arguments[0]).value;
    assert words == Words({}, {"--raw"}, 0);
    OnlyTheOption(words, arguments[1..], i - 1);
    assert arguments[1..][i - 1] == arguments[i];
  }

  /** The session key is in no accepted launch, but for the one that asks the version alone. */
  lemma TheKeyIsNeverAnArgument(arguments: seq<string>, key: string)
    requires RefusedFor(arguments, Some(key)).None? && key in arguments
    ensures arguments == [VERSION]
  {
  }
}

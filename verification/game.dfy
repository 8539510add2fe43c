/**
 * The round lifecycle of the word game: the loaded word list, the current
 * puzzle word (the screen title) and the answers accepted so far, most recent
 * first. The controller's fields become an explicit `State`; the random choice
 * is an index `pick` and the spell checker is the dictionary `known`.
 */
module Game {
  import opened Wrappers
  import opened Seqs
  import opened Text
  import opened Lines
  import opened Validator

  datatype State = State(title: Option<string>, usedWords: seq<string>, allWords: seq<string>)

  /** What a submission reports. */
  datatype Outcome =
    | Accepted(word: string)
      /** "You can't spell that word from <puzzle>", with the lower-cased title. */
    | NotPossible(puzzle: string)
      /** Not possible because there is no title: rejected without a message. */
    | NoPuzzle
    | NotOriginal
    | NotReal

  datatype Transition = Transition(outcome: Outcome, state: State)

  /** The single word used when the word-list resource cannot be read. */
  const FallbackWords: seq<string> := ["silkworm"]

  /**
   * The word list `viewDidLoad` ends up with: the resource's lines when it
   * could be read (`None` when the file is missing or unreadable), and the
   * fallback list when that leaves nothing.
   */
  function LoadWords(resource: Option<string>): (words: seq<string>)
    ensures words != []
    ensures resource.None? ==> words == FallbackWords
    ensures resource.Some? ==> Join(words, '\n') == resource.value
    ensures forall i :: 0 <= i < |words| ==> '\n' !in words[i]
  {
    var loaded := LoadLines(resource);
    if loaded == [] then FallbackWords else loaded
  }

  /** The resource's lines, or nothing when it could not be read. */
  function LoadLines(resource: Option<string>): (lines: seq<string>)
    ensures resource.Some? ==> lines != [] && Join(lines, '\n') == resource.value
    ensures forall i :: 0 <= i < |lines| ==> '\n' !in lines[i]
    ensures resource.None? ==> lines == []
  {
    match resource
    case None => []
    case Some(text) =>
      JoinSplit(text, '\n');
      Split(text, '\n')
  }

  /** A readable resource is always used as it is: splitting never yields an empty list. */
  lemma FallbackOnlyWhenMissing(resource: Option<string>)
    ensures resource.Some? ==> LoadWords(resource) == Split(resource.value, '\n')
  {
  }

  /** An empty resource gives one blank word rather than the fallback list. */
  lemma EmptyResourceGivesBlankWord()
    ensures LoadWords(Some("")) == [""]
  {
    SplitEmpty('\n');
  }

  /** A resource ending in a newline gives a blank last word after its last line. */
  lemma TrailingNewlineGivesBlankWord(line: string)
    requires '\n' !in line
    ensures LoadWords(Some(line + "\n")) == [line, ""]
  {
    var text := line + "\n";
    assert text[..|line|] == line && text[|line| + 1..] == "";
    FirstIndexUnique(text, '\n', |line|);
    SplitEmpty('\n');
    assert Split(text, '\n') == [line] + Split("", '\n');
    FallbackOnlyWhenMissing(Some(text));
  }

  /** A valid value for the random index: below the length of a non-empty list. */
  predicate PickOk(words: seq<string>, pick: nat)
  {
    words == [] || pick < |words|
  }

  /** `randomElement()`, with the random choice made by the caller through `pick`. */
  function RandomElement(words: seq<string>, pick: nat): (r: Option<string>)
    requires PickOk(words, pick)
    ensures r.None? <==> words == []
    ensures r.Some? ==> r.value in words
  {
    if words == [] then None else Some(words[pick])
  }

  /** `startGame`: a new title from the word list, and no used words. */
  function StartGame(s: State, pick: nat): (r: State)
    requires PickOk(s.allWords, pick)
    ensures r.usedWords == []
    ensures r.allWords == s.allWords
    ensures r.title.Some? <==> s.allWords != []
    ensures r.title.Some? ==> r.title.value in s.allWords
  {
    State(RandomElement(s.allWords, pick), [], s.allWords)
  }

  /** `refresh`: a new title from the word list; the used words are kept. */
  function Refresh(s: State, pick: nat): (r: State)
    requires PickOk(s.allWords, pick)
    ensures r.usedWords == s.usedWords
    ensures r.allWords == s.allWords
    ensures r.title.Some? <==> s.allWords != []
    ensures r.title.Some? ==> r.title.value in s.allWords
  {
    s.(title := RandomElement(s.allWords, pick))
  }

  /** `viewDidLoad`: load the word list, then start a game on it from an untitled screen. */
  function ViewDidLoad(resource: Option<string>, pick: nat): (r: State)
    requires pick < |LoadWords(resource)|
    ensures r.allWords == LoadWords(resource)
    ensures r.usedWords == []
    ensures r.title.Some? && r.title.value in r.allWords
  {
    StartGame(State(None, [], LoadWords(resource)), pick)
  }

  /** The conditions under which `submit` accepts `word` (already lower-cased) in state `s`. */
  predicate Acceptable(s: State, word: string, known: string -> bool)
  {
    && s.title.Some?
    && multiset(word) <= multiset(Lower(s.title.value))
    && word !in s.usedWords
    && Utf16Length(word) >= 3
    && word != s.title.value
    && known(word)
  }

  /**
   * `submit`: lower-case the answer and run the checks in the order possible,
   * original, real, reporting the first that fails; an accepted answer goes to
   * the front of the used words.
   */
  function Submit(s: State, answer: string, known: string -> bool): (t: Transition)
    ensures t.outcome.Accepted? <==> Acceptable(s, Lower(answer), known)
    ensures t.outcome.Accepted? ==>
      t.outcome.word == Lower(answer) && t.state == s.(usedWords := [Lower(answer)] + s.usedWords)
    ensures !t.outcome.Accepted? ==> t.state == s
    ensures t.outcome.NoPuzzle? <==> s.title.None?
    ensures t.outcome.NotPossible? <==>
      s.title.Some? && !(multiset(Lower(answer)) <= multiset(Lower(s.title.value)))
    ensures t.outcome.NotPossible? ==> t.outcome.puzzle == Lower(s.title.value)
    ensures t.outcome.NotOriginal? <==>
      IsPossible(s.title, Lower(answer)) && Lower(answer) in s.usedWords
    ensures t.outcome.NotReal? <==>
      IsPossible(s.title, Lower(answer)) && IsOriginal(s.usedWords, Lower(answer))
      && !IsReal(s.title, Lower(answer), known)
  {
    var lowerAnswer := Lower(answer);
    if !IsPossible(s.title, lowerAnswer) then
      match s.title
      case None => Transition(NoPuzzle, s)
      case Some(title) => Transition(NotPossible(Lower(title)), s)
    else if !IsOriginal(s.usedWords, lowerAnswer) then
      Transition(NotOriginal, s)
    else if !IsReal(s.title, lowerAnswer, known) then
      Transition(NotReal, s)
    else
      Transition(Accepted(lowerAnswer), s.(usedWords := [lowerAnswer] + s.usedWords))
  }

  /** Submitting an accepted answer again, in any letter case, is reported as not original. */
  lemma ResubmitIsNotOriginal(s: State, answer: string, again: string, known: string -> bool)
    requires Submit(s, answer, known).outcome.Accepted?
    requires Lower(again) == Lower(answer)
    ensures Submit(Submit(s, answer, known).state, again, known).outcome == NotOriginal
  {
  }

  /**
   * A submission or a refresh, which the screen offers through its two bar
   * buttons, and a new round, which only `viewDidLoad` starts.
   */
  datatype Action =
    | SubmitAnswer(answer: string)
    | StartNewGame(pick: nat)
    | RefreshTitle(pick: nat)

  /** The action's random index, if it has one, is valid for the word list. */
  predicate ActionOk(words: seq<string>, a: Action)
  {
    a.SubmitAnswer? || PickOk(words, a.pick)
  }

  /** Every action of the sequence is valid for the word list. */
  predicate ActionsOk(words: seq<string>, actions: seq<Action>)
  {
    forall i :: 0 <= i < |actions| ==> ActionOk(words, actions[i])
  }

  /**
   * One action: a submission from the answer prompt, a refresh from the bar
   * button, or the start of a new round as only `viewDidLoad` performs it.
   */
  function Step(s: State, a: Action, known: string -> bool): (r: State)
    requires ActionOk(s.allWords, a)
    ensures r.allWords == s.allWords
    ensures a.SubmitAnswer? ==> r.title == s.title
    ensures a.SubmitAnswer? ==> r.usedWords == s.usedWords || r.usedWords == [Lower(a.answer)] + s.usedWords
    ensures a.StartNewGame? ==> r.usedWords == []
    ensures a.RefreshTitle? ==> r.usedWords == s.usedWords
    ensures !a.SubmitAnswer? ==> (r.title.Some? <==> s.allWords != [])
    ensures !a.SubmitAnswer? && r.title.Some? ==> r.title.value in s.allWords
  {
    match a
    case SubmitAnswer(answer) => Submit(s, answer, known).state
    case StartNewGame(pick) => StartGame(s, pick)
    case RefreshTitle(pick) => Refresh(s, pick)
  }

  /** The state after a sequence of actions, applied first to last. */
  function Run(s: State, actions: seq<Action>, known: string -> bool): (r: State)
    requires ActionsOk(s.allWords, actions)
    ensures r.allWords == s.allWords
    ensures |r.usedWords| <= |s.usedWords| + |actions|
    ensures s.title.None? && s.allWords == [] ==> r.title.None?
    decreases |actions|
  {
    if |actions| == 0 then s
    else Run(Step(s, actions[0], known), actions[1..], known)
  }

  /** No action introduces a duplicate into the used words. */
  lemma StepKeepsNoDuplicates(s: State, a: Action, known: string -> bool)
    requires ActionOk(s.allWords, a)
    requires NoDuplicates(s.usedWords)
    ensures NoDuplicates(Step(s, a, known).usedWords)
  {
    if a.SubmitAnswer? {
      var t := Submit(s, a.answer, known);
      if t.outcome.Accepted? {
        var used := t.state.usedWords;
        forall i, j | 0 <= i < j < |used| ensures used[i] != used[j] {
          if i == 0 {
            assert used[j] == s.usedWords[j - 1];
          } else {
            assert used[i] == s.usedWords[i - 1] && used[j] == s.usedWords[j - 1];
          }
        }
      }
    }
  }

  /** Any sequence of actions keeps a duplicate-free list of used words duplicate-free. */
  lemma {:induction false} RunKeepsNoDuplicates(s: State, actions: seq<Action>, known: string -> bool)
    requires ActionsOk(s.allWords, actions)
    requires NoDuplicates(s.usedWords)
    ensures NoDuplicates(Run(s, actions, known).usedWords)
    decreases |actions|
  {
    if |actions| > 0 {
      StepKeepsNoDuplicates(s, actions[0], known);
      RunKeepsNoDuplicates(Step(s, actions[0], known), actions[1..], known);
    }
  }

  /**
   * The used words are duplicate-free and lower-case, and each one, paired with
   * the title `origins[i]` under which it was accepted, passed the possible and
   * real checks against that title.
   */
  predicate Justified(s: State, origins: seq<string>, known: string -> bool)
  {
    && |origins| == |s.usedWords|
    && NoDuplicates(s.usedWords)
    && forall i :: 0 <= i < |origins| ==> AcceptedUnder(s.usedWords[i], origins[i], known)
  }

  /** `word` is lower-case and passes the possible and real checks under the title `origin`. */
  predicate AcceptedUnder(word: string, origin: string, known: string -> bool)
  {
    && IsLower(word)
    && IsPossible(Some(origin), word)
    && IsReal(Some(origin), word, known)
  }

  /**
   * The titles under which the used words were accepted, kept in step with
   * them: an acceptance records the current title, a new game forgets them all.
   */
  function StepLedger(s: State, origins: seq<string>, a: Action, known: string -> bool): seq<string>
    requires ActionOk(s.allWords, a)
  {
    match a
    case SubmitAnswer(answer) =>
      if Submit(s, answer, known).outcome.Accepted? then [s.title.value] + origins else origins
    case StartNewGame(_) => []
    case RefreshTitle(_) => origins
  }

  /** `StepLedger` folded over the actions, first to last, alongside `Run`. */
  function RunLedger(s: State, origins: seq<string>, actions: seq<Action>, known: string -> bool): seq<string>
    requires ActionsOk(s.allWords, actions)
    decreases |actions|
  {
    if |actions| == 0 then origins
    else RunLedger(Step(s, actions[0], known), StepLedger(s, origins, actions[0], known), actions[1..], known)
  }

  /** An accepted answer is justified by the current title, in front of the earlier ones. */
  lemma AcceptKeepsJustified(s: State, origins: seq<string>, answer: string, known: string -> bool)
    requires Justified(s, origins, known)
    requires Submit(s, answer, known).outcome.Accepted?
    ensures Justified(Submit(s, answer, known).state, [s.title.value] + origins, known)
  {
    var word := Lower(answer);
    var used := Submit(s, answer, known).state.usedWords;
    var origins' := [s.title.value] + origins;
    assert used == [word] + s.usedWords;
    assert AcceptedUnder(word, s.title.value, known);
    StepKeepsNoDuplicates(s, SubmitAnswer(answer), known);
    forall i | 0 <= i < |origins'|
      ensures AcceptedUnder(used[i], origins'[i], known)
    {
      if i > 0 {
        assert used[i] == s.usedWords[i - 1] && origins'[i] == origins[i - 1];
      }
    }
  }

  /** One action keeps the used words justified by the titles they were accepted under. */
  lemma StepKeepsJustified(s: State, origins: seq<string>, a: Action, known: string -> bool)
    requires ActionOk(s.allWords, a)
    requires Justified(s, origins, known)
    ensures Justified(Step(s, a, known), StepLedger(s, origins, a, known), known)
  {
    match a
    case SubmitAnswer(answer) =>
      if Submit(s, answer, known).outcome.Accepted? {
        AcceptKeepsJustified(s, origins, answer, known);
      }
    case StartNewGame(_) =>
    case RefreshTitle(_) =>
  }

  /**
   * Along any sequence of actions the used words stay justified: each was
   * possible and real against the title that was shown when it was accepted,
   * even after a refresh has replaced that title.
   */
  lemma {:induction false} RunKeepsJustified(s: State, origins: seq<string>, actions: seq<Action>,
                                             known: string -> bool)
    requires ActionsOk(s.allWords, actions)
    requires Justified(s, origins, known)
    ensures Justified(Run(s, actions, known), RunLedger(s, origins, actions, known), known)
    decreases |actions|
  {
    if |actions| > 0 {
      StepKeepsJustified(s, origins, actions[0], known);
      RunKeepsJustified(Step(s, actions[0], known), StepLedger(s, origins, actions[0], known),
                        actions[1..], known);
    }
  }

  /** A game started by `viewDidLoad` is justified with no origins. */
  lemma LoadedGameJustified(resource: Option<string>, pick: nat, known: string -> bool)
    requires pick < |LoadWords(resource)|
    ensures Justified(ViewDidLoad(resource, pick), [], known)
  {
  }

  /** Both scenario words are already lower-case, so `submit` leaves them unchanged. */
  lemma SilkIsLower()
    ensures Lower("silk") == "silk" && Lower("silkworm") == "silkworm"
  {
    assert IsLower("silk");
    assert IsLower("silkworm");
  }

  /** "silk" is spellable from "silkworm": it is a prefix, so its letters are a sub-multiset. */
  lemma SilkLettersInSilkworm()
    ensures multiset("silk") <= multiset("silkworm")
  {
    assert "silkworm" == "silk" + "worm";
  }

  /** "silk" passes the three-code-unit rule of `isReal`. */
  lemma SilkIsLongEnough()
    ensures Utf16Length("silk") >= 3
  {
    Utf16LengthOfBmp("silk");
  }

  /** "silk" differs from the title "silkworm", so the title-equality rule of `isReal` lets it through. */
  lemma SilkIsNotSilkworm()
    ensures "silk" != "silkworm"
  {
    assert |"silkworm"| != |"silk"|;
  }

  /** Under the title "silkworm" with no used words, "silk" is accepted when the dictionary knows it. */
  lemma SilkAccepted(known: string -> bool)
    requires known("silk")
    ensures Submit(State(Some("silkworm"), [], FallbackWords), "silk", known).outcome == Accepted("silk")
  {
    SilkIsLower();
    SilkLettersInSilkworm();
    SilkIsLongEnough();
    SilkIsNotSilkworm();
  }

  /** After "silk", the puzzle word itself passes the first two checks and is rejected as not real. */
  lemma SilkwormNotReal(known: string -> bool)
    ensures Submit(State(Some("silkworm"), ["silk"], FallbackWords), "silkworm", known).outcome == NotReal
  {
    SilkIsLower();
    SilkIsNotSilkworm();
    assert "silkworm" !in ["silk"];
  }

  /**
   * With puzzle word "silkworm" and a dictionary that knows "silk": "silk" is
   * accepted, "silk" again is not original, and "silkworm" itself is not real.
   */
  lemma SilkwormScenario(known: string -> bool)
    requires known("silk")
    ensures var t1 := Submit(State(Some("silkworm"), [], FallbackWords), "silk", known);
            && t1.outcome == Accepted("silk")
            && t1.state == State(Some("silkworm"), ["silk"], FallbackWords)
            && Submit(t1.state, "silk", known).outcome == NotOriginal
            && Submit(t1.state, "silkworm", known).outcome == NotReal
  {
    var s0 := State(Some("silkworm"), [], FallbackWords);
    SilkAccepted(known);
    ResubmitIsNotOriginal(s0, "silk", "silk", known);
    SilkwormNotReal(known);
  }

  /** Lower-casing "Silkworm" gives "silkworm", which lower-casing leaves unchanged. */
  lemma CapitalSilkwormLowers()
    ensures Lower("Silkworm") == "silkworm" && Lower("silkworm") == "silkworm"
  {
    var s := "Silkworm";
    assert IsLower("silkworm");
    assert forall i | 1 <= i < |s| :: !IsUpperChar(s[i]);
    assert forall i | 0 <= i < |s| :: Lower(s)[i] == "silkworm"[i];
  }

  /**
   * The title is compared with the answer without lower-casing it, so under a
   * capitalised title the puzzle word itself passes every check the dictionary allows.
   */
  lemma CapitalisedTitleAcceptsItself(known: string -> bool)
    requires known("silkworm")
    ensures Submit(State(Some("Silkworm"), [], FallbackWords), "silkworm", known).outcome
            == Accepted("silkworm")
  {
    CapitalSilkwormLowers();
    Utf16LengthOfBmp("silkworm");
    assert "Silkworm"[0] != "silkworm"[0];
    assert Acceptable(State(Some("Silkworm"), [], FallbackWords), "silkworm", known);
  }
}

/**
  The hangman-style trivia page: the player guesses letters of the current
  answer, with a budget of five wrong guesses per question. Each user action
  is a handler followed by the page's win/loss effect, which React runs after
  every render while the state is 'playing'.
 */
module Hangman {
  import opened Text
  import opened Collections

  const MaxWrongGuesses: nat := 5

  /** A question record as stored in the trivia file: the prompt may sit under
      the key "Question " (with a trailing space) or "Question". */
  datatype RawQuestion = RawQuestion(spacedKey: Option<string>, plainKey: Option<string>, answer: string)

  datatype Question = Question(prompt: Option<string>, answer: string)

  datatype Phase = Playing | WonLevel | GameOver | Completed

  datatype Session = Session(index: nat, guessed: set<char>, wrong: nat, score: int, phase: Phase)

  datatype Action = Guess(letter: char) | NextLevel | Restart

  /** The prompt comes from the spaced key unless that key is missing or
      empty, in which case the unspaced key is used; the answer is upper-cased. */
  function Normalize(q: RawQuestion): (r: Question)
    ensures r.answer == Upper(q.answer)
    ensures q.spacedKey.Some? && q.spacedKey.value != "" ==> r.prompt == q.spacedKey
    ensures q.spacedKey.None? || q.spacedKey == Some("") ==> r.prompt == q.plainKey
  {
    var prompt := if q.spacedKey.Some? && q.spacedKey.value != "" then q.spacedKey else q.plainKey;
    Question(prompt, Upper(q.answer))
  }

  /** Upper-casing the answer is what makes guessing case-blind: the letters
      to guess are exactly the capitals of the raw answer's ASCII letters, in
      either case, and nothing else. */
  lemma NormalizeLetters(q: RawQuestion)
    ensures Letters(Normalize(q).answer) == set c | c in q.answer && IsAsciiLetter(c) :: UpperChar(c)
  {
    var a := q.answer;
    var u := Upper(a);
    var want := set c | c in a && IsAsciiLetter(c) :: UpperChar(c);
    forall x | x in Letters(u) ensures x in want {
      var i :| 0 <= i < |u| && u[i] == x;
      assert IsAsciiLetter(a[i]);
      assert UpperChar(a[i]) == x;
    }
    forall x | x in want ensures x in Letters(u) {
      var c :| c in a && IsAsciiLetter(c) && UpperChar(c) == x;
      var i :| 0 <= i < |a| && a[i] == c;
      assert u[i] == x;
    }
  }

  /** Letters A–Z of the answer: the only characters that must be guessed. */
  function Letters(answer: string): set<char> {
    set c | c in answer && IsUpperAZ(c)
  }

  /** The guessed letters that do not occur in the answer. */
  function Misses(guessed: set<char>, answer: string): set<char> {
    set c | c in guessed && c !in answer
  }

  /** The `isProblemSolved` test: every character is either not in A–Z or guessed. */
  predicate Solved(answer: string, guessed: set<char>) {
    forall i :: 0 <= i < |answer| ==> !IsUpperAZ(answer[i]) || answer[i] in guessed
  }

  /** Solving needs exactly the answer's A–Z letters; punctuation, digits and
      spaces never need guessing. */
  lemma SolvedIffLettersGuessed(answer: string, guessed: set<char>)
    ensures Solved(answer, guessed) <==> Letters(answer) <= guessed
  {
    if Letters(answer) <= guessed {
      forall i | 0 <= i < |answer| && IsUpperAZ(answer[i])
        ensures answer[i] in guessed
      {
        assert answer[i] in Letters(answer);
      }
    }
  }

  /** The state at mount and after `restartGame`, before the effect runs. */
  const Fresh: Session := Session(0, {}, 0, 0, Playing)

  /** `handleGuess(letter)`. */
  function HandleGuess(s: Session, answer: string, letter: char): (r: Session)
    ensures s.phase != Playing || letter in s.guessed ==> r == s
    ensures s.phase == Playing && letter !in s.guessed ==>
              && r.guessed == s.guessed + {letter}
              && r.wrong == (if letter in answer then s.wrong else s.wrong + 1)
              && r.index == s.index && r.score == s.score && r.phase == s.phase
  {
    if s.phase != Playing || letter in s.guessed then s
    else
      var found := Contains(answer, [letter]);
      ContainsChar(answer, letter);
      s.(guessed := s.guessed + {letter}, wrong := if found then s.wrong else s.wrong + 1)
  }

  /** The win/loss effect. The solved test comes first; a solved level scores
      100 plus 20 per life left. */
  function CheckOutcome(s: Session, answer: string): (r: Session)
    ensures s.phase != Playing ==> r == s
    ensures s.phase == Playing && Solved(answer, s.guessed) ==>
              r == s.(phase := WonLevel, score := s.score + 100 + (MaxWrongGuesses - s.wrong) * 20)
    ensures s.phase == Playing && !Solved(answer, s.guessed) && s.wrong >= MaxWrongGuesses ==>
              r == s.(phase := GameOver)
    ensures s.phase == Playing && !Solved(answer, s.guessed) && s.wrong < MaxWrongGuesses ==> r == s
  {
    if s.phase != Playing then s
    else if Solved(answer, s.guessed) then
      s.(phase := WonLevel, score := s.score + 100 + (MaxWrongGuesses - s.wrong) * 20)
    else if s.wrong >= MaxWrongGuesses then s.(phase := GameOver)
    else s
  }

  /** `nextLevel()`: the next question with a clean slate while one remains,
      otherwise 'completed'. The score is kept. */
  function HandleNextLevel(s: Session, count: nat): (r: Session)
    requires s.index < count
    ensures r.index < count
    ensures s.index < count - 1 ==> r == Session(s.index + 1, {}, 0, s.score, Playing)
    ensures s.index == count - 1 ==> r == s.(phase := Completed)
  {
    if s.index < count - 1 then s.(index := s.index + 1, guessed := {}, wrong := 0, phase := Playing)
    else s.(phase := Completed)
  }

  /** `restartGame()`. */
  function HandleRestart(s: Session): (r: Session)
    ensures r.index == 0 && r.guessed == {} && r.wrong == 0 && r.score == 0 && r.phase == Playing
  {
    Fresh
  }

  /** One user action followed by the effect on the question now showing. */
  function Step(questions: seq<Question>, s: Session, a: Action): Session
    requires s.index < |questions|
  {
    var t := match a
      case Guess(l) => HandleGuess(s, questions[s.index].answer, l)
      case NextLevel => HandleNextLevel(s, |questions|)
      case Restart => HandleRestart(s);
    CheckOutcome(t, questions[t.index].answer)
  }

  /** The page after mounting: the effect has run once on the first question. */
  function Start(questions: seq<Question>): Session
    requires |questions| > 0
  {
    CheckOutcome(Fresh, questions[0].answer)
  }

  /** What every reachable state satisfies: the index is in range, the wrong
      count is the number of guessed letters missing from the answer and stays
      within the budget, a level still being played is neither solved nor lost,
      and the score is never negative. */
  ghost predicate Valid(questions: seq<Question>, s: Session) {
    && s.index < |questions|
    && s.wrong == |Misses(s.guessed, questions[s.index].answer)|
    && s.wrong <= MaxWrongGuesses
    && (s.phase == Playing ==> !Solved(questions[s.index].answer, s.guessed) && s.wrong < MaxWrongGuesses)
    && s.score >= 0
  }

  lemma MissesAdd(guessed: set<char>, answer: string, letter: char)
    requires letter !in guessed
    ensures Misses(guessed + {letter}, answer)
         == if letter in answer then Misses(guessed, answer) else Misses(guessed, answer) + {letter}
  {
  }

  lemma StartValid(questions: seq<Question>)
    requires |questions| > 0
    ensures Valid(questions, Start(questions))
  {
    assert Misses({}, questions[0].answer) == {};
  }

  /** Every action keeps the invariant. */
  lemma StepPreservesValid(questions: seq<Question>, s: Session, a: Action)
    requires Valid(questions, s)
    ensures Step(questions, s, a).index < |questions|
    ensures Valid(questions, Step(questions, s, a))
  {
    match a
    case Guess(l) =>
      if s.phase == Playing && l !in s.guessed {
        MissesAdd(s.guessed, questions[s.index].answer, l);
      }
    case NextLevel =>
      var t := HandleNextLevel(s, |questions|);
      assert Misses({}, questions[t.index].answer) == {};
    case Restart =>
      assert Misses({}, questions[0].answer) == {};
  }

  // ---------------------------------------------------------------------------
  // Five misses end the level, in any order
  // ---------------------------------------------------------------------------

  /** The letters of a guess sequence, as a set. */
  function Tried(letters: seq<char>): set<char> {
    set c | c in letters
  }

  /** Guessing `letters` one after another on the same question. */
  function Run(s: Session, answer: string, letters: seq<char>): Session
    decreases |letters|
  {
    if |letters| == 0 then s
    else Run(CheckOutcome(HandleGuess(s, answer, letters[0]), answer), answer, letters[1..])
  }

  /** What holds while one question is played after the letters `done` were
      tried: nothing but those letters is guessed, a level still being played has
      guessed all of them and counts its misses, and a won level is solved. */
  ghost predicate LevelInv(s: Session, answer: string, done: set<char>) {
    && s.guessed <= done
    && s.phase in {Playing, WonLevel, GameOver}
    && (s.phase == Playing ==>
          s.guessed == done && s.wrong == |Misses(done, answer)| && s.wrong < MaxWrongGuesses
          && !Solved(answer, s.guessed))
    && (s.phase == WonLevel ==> Solved(answer, s.guessed))
  }

  lemma {:induction false} RunKeepsLevelInv(s: Session, answer: string, letters: seq<char>, done: set<char>)
    requires LevelInv(s, answer, done)
    ensures LevelInv(Run(s, answer, letters), answer, done + Tried(letters))
    decreases |letters|
  {
    if |letters| > 0 {
      var l := letters[0];
      var t := CheckOutcome(HandleGuess(s, answer, l), answer);
      GuessKeepsLevelInv(s, answer, l, done);
      RunKeepsLevelInv(t, answer, letters[1..], done + {l});
      assert (done + {l}) + Tried(letters[1..]) == done + Tried(letters);
    }
  }

  /** One guess and the effect after it keep the level invariant, with the
      guessed letter added to those tried. */
  lemma GuessKeepsLevelInv(s: Session, answer: string, l: char, done: set<char>)
    requires LevelInv(s, answer, done)
    ensures LevelInv(CheckOutcome(HandleGuess(s, answer, l), answer), answer, done + {l})
  {
    if s.phase == Playing && l !in s.guessed {
      MissesAdd(done, answer, l);
      assert l !in Misses(done, answer);
      assert HandleGuess(s, answer, l).guessed == done + {l};
    } else if s.phase == Playing {
      assert done + {l} == done;
    }
  }

  lemma SolvedMonotone(answer: string, g1: set<char>, g2: set<char>)
    requires Solved(answer, g1) && g1 <= g2
    ensures Solved(answer, g2)
  {
  }

  /** Starting a question afresh, five distinct letters absent from the answer
      end it in 'game_over' whatever the order of the guesses, as long as some
      letter of the answer is never guessed. */
  lemma FiveMissesEndGame(s: Session, answer: string, letters: seq<char>)
    requires s.guessed == {} && s.wrong == 0 && s.phase == Playing && !Solved(answer, {})
    requires |Misses(Tried(letters), answer)| >= MaxWrongGuesses
    requires exists c :: c in answer && IsUpperAZ(c) && c !in letters
    ensures Run(s, answer, letters).phase == GameOver
  {
    assert Misses({}, answer) == {};
    assert LevelInv(s, answer, {});
    RunKeepsLevelInv(s, answer, letters, {});
    var r := Run(s, answer, letters);
    assert {} + Tried(letters) == Tried(letters);
    var c :| c in answer && IsUpperAZ(c) && c !in letters;
    assert c !in r.guessed;
  }

  /** A step either leaves the score alone or wins a level for 100 plus 20
      per remaining life, between 100 and 200 points; a restart starts again
      from 0 (and wins at once when the first answer has no letters). */
  lemma StepScore(questions: seq<Question>, s: Session, a: Action)
    requires Valid(questions, s)
    ensures var r := Step(questions, s, a);
            a != Restart ==>
              || r.score == s.score
              || (r.phase == WonLevel && 100 <= r.score - s.score <= 200)
    ensures var r := Step(questions, s, a);
            a == Restart ==> r.score == 0 || (r.phase == WonLevel && 100 <= r.score <= 200)
  {
    match a
    case Guess(l) =>
      var t := HandleGuess(s, questions[s.index].answer, l);
      assert t.wrong <= MaxWrongGuesses;
    case NextLevel =>
    case Restart =>
  }
}

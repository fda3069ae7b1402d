/** The real-time checks of the revision panel: the word just typed before
    the cursor, the sentence just ended by a punctuation mark, and the panel
    state they update around the calls to the checking service. */
module RevisionPanel {
  import opened Wrappers
  import opened Text
  import EnglishAnalyzer
  import AnalyzerHook

  // ---------------------------------------------------------------------
  // The word before the cursor
  // ---------------------------------------------------------------------

  /** Where the maximal run of `\w` characters that ends the text starts
      (the length of the text when it does not end with one). */
  function WordStart(before: string): (k: nat)
    ensures k <= |before|
    ensures forall i :: k <= i < |before| ==> IsWordChar(before[i])
    ensures k > 0 ==> !IsWordChar(before[k - 1])
    decreases |before|
  {
    if before != [] && IsWordChar(before[|before| - 1]) then WordStart(before[..|before| - 1])
    else |before|
  }

  /** `before.match(/\b\w+$/)`: that run, or "" when there is none. */
  function CurrentWord(before: string): (w: string)
    ensures exists k :: 0 <= k <= |before| && w == before[k..] && (k > 0 ==> !IsWordChar(before[k - 1]))
    ensures forall i :: 0 <= i < |w| ==> IsWordChar(w[i])
  {
    before[WordStart(before)..]
  }

  /** The `\b` before the match holds: where a non-empty word starts, the
      character before it (if any) is not a word character, and the word
      cannot be extended to the left. */
  lemma CurrentWordStartsAtBoundary(before: string)
    requires CurrentWord(before) != []
    ensures EnglishAnalyzer.IsBoundary(before, WordStart(before))
    ensures forall i :: 0 <= i < |CurrentWord(before)| ==> IsWordChar(CurrentWord(before)[i])
  {
  }

  /** `/[a-zA-Z]/.test(w)` */
  predicate HasAsciiLetter(w: string) {
    exists i :: 0 <= i < |w| && IsAsciiLetter(w[i])
  }

  /** The word is sent for checking only when it is non-empty and holds a letter. */
  predicate WordIsChecked(w: string) {
    w != [] && HasAsciiLetter(w)
  }

  /** A run of digits and underscores is never checked. */
  lemma DigitsAreNotChecked(w: string)
    requires forall i :: 0 <= i < |w| ==> ('0' <= w[i] <= '9' || w[i] == '_')
    ensures !WordIsChecked(w)
  {
  }

  // ---------------------------------------------------------------------
  // The sentence before the cursor
  // ---------------------------------------------------------------------

  /** `[.!?;]` */
  predicate IsDelimiter(c: char) {
    c == '.' || c == '!' || c == '?' || c == ';'
  }

  /** `text[cursorPos - 1]`, undefined outside the text. */
  function LastChar(text: string, cursorPos: nat): (r: Option<char>)
    ensures r.Some? <==> 1 <= cursorPos <= |text|
    ensures r.Some? ==> r.value == text[cursorPos - 1]
  {
    if 1 <= cursorPos <= |text| then Some(text[cursorPos - 1]) else None
  }

  /** The sentence branch is taken when the character before the cursor is a delimiter. */
  predicate SentenceTriggered(text: string, cursorPos: nat) {
    var c := LastChar(text, cursorPos);
    c.Some? && IsDelimiter(c.value)
  }

  /** `s.split(/[.!?;]/)`, built from the end of `s`: a delimiter closes
      the last piece and opens an empty one. */
  function Split(s: string): (pieces: seq<string>)
    ensures |pieces| >= 1
    decreases |s|
  {
    if s == [] then [[]]
    else
      var init := Split(s[..|s| - 1]);
      var c := s[|s| - 1];
      if IsDelimiter(c) then init + [[]]
      else init[..|init| - 1] + [init[|init| - 1] + [c]]
  }

  function Last<T>(xs: seq<T>): T
    requires xs != []
  {
    xs[|xs| - 1]
  }

  predicate NoDelimiter(s: string) {
    forall i :: 0 <= i < |s| ==> !IsDelimiter(s[i])
  }

  /** Appending a character either opens a new empty piece (a delimiter)
      or extends the last piece. */
  lemma LastOfSplitSnoc(s: string, c: char)
    ensures Last(Split(s + [c])) == if IsDelimiter(c) then [] else Last(Split(s)) + [c]
  {
    assert (s + [c])[..|s|] == s;
  }

  lemma NoDelimiterSnoc(q: string, c: char)
    requires NoDelimiter(q) && !IsDelimiter(c)
    ensures NoDelimiter(q + [c])
  {
    var p := q + [c];
    forall i | 0 <= i < |p| ensures !IsDelimiter(p[i]) {
      if i < |q| { assert p[i] == q[i]; }
    }
  }

  /** The last piece is the longest suffix without a delimiter. */
  lemma {:induction false} LastPieceIsTail(s: string)
    ensures |Last(Split(s))| <= |s|
    ensures Last(Split(s)) == s[|s| - |Last(Split(s))|..]
    ensures NoDelimiter(Last(Split(s)))
    ensures |Last(Split(s))| < |s| ==> IsDelimiter(s[|s| - |Last(Split(s))| - 1])
    decreases |s|
  {
    if s != [] {
      var init, c := s[..|s| - 1], s[|s| - 1];
      assert s == init + [c];
      LastPieceIsTail(init);
      LastOfSplitSnoc(init, c);
      if !IsDelimiter(c) {
        var q := Last(Split(init));
        var p := q + [c];
        assert s[|s| - |p|..] == init[|init| - |q|..] + [c];
        NoDelimiterSnoc(q, c);
        if |p| < |s| {
          assert s[|s| - |p| - 1] == init[|init| - |q| - 1];
        }
      }
    }
  }

  /** After a delimiter (or at the start), a stretch without delimiters is the last piece. */
  lemma {:induction false} LastPieceAfterDelimiter(prefix: string, body: string)
    requires NoDelimiter(body)
    requires prefix == [] || IsDelimiter(prefix[|prefix| - 1])
    ensures Last(Split(prefix + body)) == body
    decreases |body|
  {
    if body == [] {
      assert prefix + body == prefix;
      if prefix != [] {
        var init := prefix[..|prefix| - 1];
        assert prefix == init + [prefix[|prefix| - 1]];
        LastOfSplitSnoc(init, prefix[|prefix| - 1]);
      }
    } else {
      var b, c := body[..|body| - 1], body[|body| - 1];
      assert NoDelimiter(b) by {
        forall i | 0 <= i < |b| ensures !IsDelimiter(b[i]) {
          assert b[i] == body[i];
        }
      }
      LastPieceAfterDelimiter(prefix, b);
      assert body == b + [c];
      var x := prefix + b;
      assert prefix + body == x + [c];
      LastOfSplitSnoc(x, c);
    }
  }

  /** The "current sentence" as written: the trimmed last piece of the split. */
  function CurrentSentence(before: string): (r: string)
    ensures exists k :: (0 <= k <= |before| && (k == 0 || IsDelimiter(before[k - 1]))
                         && NoDelimiter(before[k..]) && r == Trim(before[k..]))
  {
    LastPieceIsTail(before);
    var p := Last(Split(before));
    assert 0 <= |before| - |p| <= |before|;
    Trim(p)
  }

  /** When the branch is taken, the text up to the cursor ends with the
      delimiter, the last piece is empty, and so no sentence is ever sent. */
  lemma SentenceCheckNeverFires(text: string, cursorPos: nat)
    requires SentenceTriggered(text, cursorPos)
    ensures CurrentSentence(Slice(text, 0, cursorPos)) == []
  {
    var before := Slice(text, 0, cursorPos);
    assert before == text[..cursorPos];
    assert before[|before| - 1] == text[cursorPos - 1];
    assert AllSpace([]);
  }

  /** k starts the stretch between the previous delimiter (or the start of
      the text) and the delimiter that ends `before`. */
  predicate SentenceStartsAt(before: string, k: int) {
    0 <= k < |before| && NoDelimiter(before[k..|before| - 1]) && (k == 0 || IsDelimiter(before[k - 1]))
  }

  /** The sentence the final delimiter just completed: the trimmed piece
      before the final (empty) one. */
  function CompletedSentence(before: string): (r: string)
    requires before != [] && IsDelimiter(before[|before| - 1])
    ensures exists k :: SentenceStartsAt(before, k) && r == Trim(before[k..|before| - 1])
  {
    CompletedPiece(before);
    var pieces := Split(before);
    Trim(pieces[|pieces| - 2])
  }

  /** The piece before the final (empty) one starts after the previous
      delimiter and runs up to the final one. */
  lemma CompletedPiece(before: string)
    requires before != [] && IsDelimiter(before[|before| - 1])
    ensures |Split(before)| >= 2
    ensures var p := Split(before)[|Split(before)| - 2];
      |p| < |before| && SentenceStartsAt(before, |before| - |p| - 1) && before[|before| - |p| - 1..|before| - 1] == p
  {
    var pieces := Split(before);
    var init := before[..|before| - 1];
    assert pieces == Split(init) + [[]];
    LastPieceIsTail(init);
    var p := Last(Split(init));
    assert pieces[|pieces| - 2] == p;
    var k := |init| - |p|;
    assert before[k..|before| - 1] == init[k..] == p;
    if k > 0 {
      assert before[k - 1] == init[k - 1];
    }
    assert SentenceStartsAt(before, k);
  }

  /** The completed sentence is the trimmed text between the previous
      delimiter (or the start) and the final one. */
  lemma CompletedSentenceIsLastSentence(prefix: string, body: string, d: char)
    requires NoDelimiter(body) && IsDelimiter(d)
    requires prefix == [] || IsDelimiter(prefix[|prefix| - 1])
    ensures CompletedSentence(prefix + body + [d]) == Trim(body)
  {
    var x := prefix + body;
    var before := x + [d];
    assert before[..|x|] == x;
    var pieces := Split(before);
    assert pieces == Split(x) + [[]];
    LastPieceAfterDelimiter(prefix, body);
    assert pieces[|pieces| - 2] == body;
  }

  // ---------------------------------------------------------------------
  // Panel state
  // ---------------------------------------------------------------------

  /** What `checkWord` answers: the word was spelt correctly or not, with
      suggestions, an explanation and a confidence. */
  datatype WordReply = WordReply(isCorrect: bool, suggestions: Option<seq<string>>,
                                 explanation: Option<string>, confidence: Option<real>)

  datatype SentenceReply = SentenceReply(issues: Option<seq<string>>, suggestions: Option<seq<string>>,
                                         overallScore: Option<real>, explanation: Option<string>)

  /** The outcome of an awaited call: an answer, a falsy answer, or a rejection. */
  datatype Reply<T> = Answered(answer: T) | Nothing | Rejected

  datatype WordCheck = WordCheck(word: string, suggestion: string, reason: string,
                                 confidence: Option<real>, position: int)

  datatype SentenceCheck = SentenceCheck(sentence: string, issues: seq<string>, suggestions: seq<string>,
                                         overallScore: real, explanation: string)

  /** `x || ''` */
  function OrEmpty(o: Option<string>): string {
    o.GetOr("")
  }

  /** `suggestions?.[0] || ''` */
  function FirstOrEmpty(o: Option<seq<string>>): (r: string)
    ensures o.Some? && |o.value| > 0 ==> r == o.value[0]
    ensures o.None? || |o.value| == 0 ==> r == ""
  {
    if o.Some? && |o.value| > 0 then o.value[0] else ""
  }

  /** The word-check record kept for a word the service found wrong. */
  function WordCheckFor(word: string, cursorPos: nat, r: WordReply): WordCheck {
    WordCheck(word, FirstOrEmpty(r.suggestions), OrEmpty(r.explanation), r.confidence, cursorPos - |word|)
  }

  function SentenceCheckFor(sentence: string, r: SentenceReply): SentenceCheck {
    SentenceCheck(sentence, r.issues.GetOr([]), r.suggestions.GetOr([]), r.overallScore.GetOr(0.0), OrEmpty(r.explanation))
  }

  /** The word a check at `cursorPos` sends, if any. */
  function WordToCheck(text: string, cursorPos: nat): Option<string> {
    var w := CurrentWord(Slice(text, 0, cursorPos));
    if WordIsChecked(w) then Some(w) else None
  }

  /** The sentence a check at `cursorPos` sends, if any. */
  function SentenceToCheck(text: string, cursorPos: nat): Option<string> {
    if SentenceTriggered(text, cursorPos) then
      var s := CompletedSentence(text[..cursorPos]);
      if s != [] then Some(s) else None
    else None
  }

  /** The sentence the code as written sends: the trimmed last piece of the
      split when it is non-empty. It never sends one. */
  function SentenceToCheckAsWritten(text: string, cursorPos: nat): (r: Option<string>)
    ensures r == None
  {
    if SentenceTriggered(text, cursorPos) then
      var s := CurrentSentence(Slice(text, 0, cursorPos));
      SentenceCheckNeverFires(text, cursorPos);
      if s != [] then Some(s) else None
    else None
  }

  /** The recorded position of the word is where it starts in the text. */
  lemma WordPosition(text: string, cursorPos: nat)
    requires cursorPos <= |text| && WordToCheck(text, cursorPos).Some?
    ensures var w := WordToCheck(text, cursorPos).value;
      0 <= cursorPos - |w| && text[cursorPos - |w|..cursorPos] == w
  {
    var before := Slice(text, 0, cursorPos);
    assert before == text[..cursorPos];
  }

  /** The word check kept after a check: a new record when a word was sent
      and the service answered that it is wrong, the previous one otherwise. */
  function WordRecorded(prev: Option<WordCheck>, sent: Option<string>, cursorPos: nat, reply: Reply<WordReply>): (r: Option<WordCheck>)
    ensures sent.Some? && reply.Answered? && !reply.answer.isCorrect ==>
      r == Some(WordCheckFor(sent.value, cursorPos, reply.answer))
    ensures sent.Some? && reply.Answered? && !reply.answer.isCorrect ==>
      r.value.word == sent.value && r.value.suggestion == FirstOrEmpty(reply.answer.suggestions)
    ensures !(sent.Some? && reply.Answered? && !reply.answer.isCorrect) ==> r == prev
  {
    if sent.Some? && reply.Answered? && !reply.answer.isCorrect
    then Some(WordCheckFor(sent.value, cursorPos, reply.answer))
    else prev
  }

  /** The sentence check kept after a check: the service's analysis when a
      sentence was sent and answered, the previous one otherwise. */
  function SentenceRecorded(prev: Option<SentenceCheck>, sent: Option<string>, reply: Reply<SentenceReply>): (r: Option<SentenceCheck>)
    ensures sent.Some? && reply.Answered? ==> r == Some(SentenceCheckFor(sent.value, reply.answer))
    ensures sent.Some? && reply.Answered? ==>
      r.value.sentence == sent.value && r.value.suggestions == reply.answer.suggestions.GetOr([])
    ensures !(sent.Some? && reply.Answered?) ==> r == prev
  {
    if sent.Some? && reply.Answered?
    then Some(SentenceCheckFor(sent.value, reply.answer))
    else prev
  }

  /** The panel's state: the last word and sentence results, the loading
      flag and whether the health check succeeded. */
  class Panel {
    var wordCheck: Option<WordCheck>
    var sentenceCheck: Option<SentenceCheck>
    var isLoading: bool
    var apiConnected: bool

    constructor ()
      ensures wordCheck == None && sentenceCheck == None && !isLoading && !apiConnected
    {
      wordCheck := None;
      sentenceCheck := None;
      isLoading := false;
      apiConnected := false;
    }

    /** The mount-time health check, with its outcome as a parameter. */
    method CheckConnection(healthy: bool)
      modifies this
      ensures apiConnected == healthy
      ensures wordCheck == old(wordCheck) && sentenceCheck == old(sentenceCheck) && isLoading == old(isLoading)
    {
      apiConnected := healthy;
    }

    /** `performRealTimeCheck`, with the service's replies as parameters;
      returns the word and the sentence it sent. A rejected word check
      skips the sentence check; the loading flag is cleared either way. */
    method PerformRealTimeCheck(text: string, cursorPos: nat, wordReply: Reply<WordReply>, sentenceReply: Reply<SentenceReply>)
      returns (wordSent: Option<string>, sentenceSent: Option<string>)
      modifies this
      ensures !old(apiConnected) ==> unchanged(this) && wordSent.None? && sentenceSent.None?
      ensures old(apiConnected) ==> !isLoading && apiConnected
      ensures wordSent == (if old(apiConnected) then WordToCheck(text, cursorPos) else None)
      ensures wordCheck == WordRecorded(old(wordCheck), wordSent, cursorPos, wordReply)
      ensures sentenceSent ==
        (if old(apiConnected) && !(wordSent.Some? && wordReply.Rejected?) then SentenceToCheck(text, cursorPos) else None)
      ensures sentenceCheck == SentenceRecorded(old(sentenceCheck), sentenceSent, sentenceReply)
    {
      wordSent, sentenceSent := None, None;
      if !apiConnected {
        return;
      }
      isLoading := true;
      wordSent := CheckWord(text, cursorPos, wordReply);
      // a rejected call jumps to the catch block, past the sentence check
      if !(wordSent.Some? && wordReply.Rejected?) {
        sentenceSent := CheckSentence(text, cursorPos, sentenceReply);
      }
      isLoading := false;
    }

    /** The word half: the word before the cursor is sent when it holds a
      letter, and recorded when the service finds it wrong. */
    method CheckWord(text: string, cursorPos: nat, wordReply: Reply<WordReply>) returns (wordSent: Option<string>)
      modifies this
      ensures wordSent == WordToCheck(text, cursorPos)
      ensures wordCheck == WordRecorded(old(wordCheck), wordSent, cursorPos, wordReply)
      ensures sentenceCheck == old(sentenceCheck) && isLoading == old(isLoading) && apiConnected == old(apiConnected)
    {
      wordSent := WordToCheck(text, cursorPos);
      wordCheck := WordRecorded(wordCheck, wordSent, cursorPos, wordReply);
    }

    /** The sentence half: the sentence the delimiter before the cursor
      completed is sent, and the service's analysis recorded. */
    method CheckSentence(text: string, cursorPos: nat, sentenceReply: Reply<SentenceReply>) returns (sentenceSent: Option<string>)
      modifies this
      ensures sentenceSent == SentenceToCheck(text, cursorPos)
      ensures sentenceCheck == SentenceRecorded(old(sentenceCheck), sentenceSent, sentenceReply)
      ensures wordCheck == old(wordCheck) && isLoading == old(isLoading) && apiConnected == old(apiConnected)
    {
      sentenceSent := SentenceToCheck(text, cursorPos);
      sentenceCheck := SentenceRecorded(sentenceCheck, sentenceSent, sentenceReply);
    }

    /** `applyRealTimeSuggestion`: for a word suggestion it clears the word
      check and asks the page to apply issue -1, which never exists, so the
      content is never changed; the returned index is that request. */
    method ApplyRealTimeSuggestion(kind: string, content: string, issues: seq<EnglishAnalyzer.Issue>)
      returns (requested: Option<int>)
      modifies this
      ensures requested.Some? <==> kind == "word" && old(wordCheck).Some?
      ensures requested.Some? ==> requested.value == -1 && wordCheck == None
      ensures requested.Some? ==> AnalyzerHook.ApplySingle(content, issues, requested.value).None?
      ensures requested.None? ==> wordCheck == old(wordCheck)
      ensures sentenceCheck == old(sentenceCheck) && isLoading == old(isLoading) && apiConnected == old(apiConnected)
    {
      requested := None;
      if kind == "word" && wordCheck.Some? {
        requested := Some(-1);
        wordCheck := None;
      }
    }
  }
}

/** The free-practice chat of a lesson: it picks vocabulary out of the tutor's replies, keeps a
    de-duplicated list of detected words, and moves a chosen word into the vocabulary store. */
module LessonChat {
  import opened Optional
  import opened Text
  import Seqs
  import opened Chat
  import VocabularyContext

  /** An entry of the lesson's vocabulary list. */
  datatype VocabEntry = VocabEntry(german: string, english: string, kind: string)

  /** A detected word, as the chat lists it for adding. */
  datatype Pair = Pair(german: string, english: string)

  /** What `/api/conversation` gives back: an error, a body with a `response` text, or a body
      without one (the service parses the model's output as JSON, `{}` when it is empty). */
  datatype Reply = Failed | Received(response: string) | NoResponse

  /** The content of an assistant message whose `response` is `undefined`: it renders as
      nothing. */
  const MissingContent := ""

  const ErrorReply := "Entschuldigung! There was an error. Please try again."

  /** The opening assistant message, with the lesson title in quotes. */
  function Welcome(lessonTitle: string): string {
    "Hallo! Willkommen zum \"" + lessonTitle + "\" \U{DC}bungsgespr\U{E4}ch. Let's practice together! "
    + "Choose a scenario below or just start chatting in German. \U{1F60A}"
  }

  // ---------------------------------------------------------------------------------------
  // Tokenizer: `split(/[\s,.!?;:]+/)` followed by `filter(word => word.length > 2)`

  /** A character of the split pattern's class. */
  predicate IsSeparator(c: char) {
    IsSpace(c) || c == ',' || c == '.' || c == '!' || c == '?' || c == ';' || c == ':'
  }

  predicate NoSeparator(s: string) {
    forall k :: 0 <= k < |s| ==> !IsSeparator(s[k])
  }

  /** The index of the first separator of `s`. */
  function FirstSeparator(s: string): (i: nat)
    requires !NoSeparator(s)
    ensures i < |s| && IsSeparator(s[i]) && NoSeparator(s[..i])
  {
    if IsSeparator(s[0]) then 0
    else
      var i := 1 + FirstSeparator(s[1..]);
      assert forall k :: 1 <= k < i ==> s[..i][k] == s[1..][..i - 1][k - 1];
      i
  }

  /** The end of the run of separators that starts at `i`. */
  function RunEnd(s: string, i: nat): (j: nat)
    requires i < |s| && IsSeparator(s[i])
    ensures i < j <= |s| && (j == |s| || !IsSeparator(s[j]))
    ensures forall k :: i <= k < j ==> IsSeparator(s[k])
    decreases |s| - i
  {
    if i + 1 < |s| && IsSeparator(s[i + 1]) then RunEnd(s, i + 1) else i + 1
  }

  /** The pieces the split gives: the text between maximal runs of separators, with an empty
      piece before a leading run and after a trailing one. */
  function Pieces(s: string): (r: seq<string>)
    ensures |r| >= 1
    ensures forall p :: p in r ==> NoSeparator(p)
    decreases |s|
  {
    if NoSeparator(s) then [s]
    else
      var i := FirstSeparator(s);
      [s[..i]] + Pieces(s[RunEnd(s, i)..])
  }

  /** The pieces longer than two characters, in order. */
  function Tokens(s: string): seq<string> {
    LongPieces(Pieces(s))
  }

  function LongPieces(ps: seq<string>): (r: seq<string>)
    ensures forall t :: t in r <==> t in ps && |t| > 2
  {
    if ps == [] then []
    else (if |ps[0]| > 2 then [ps[0]] else []) + LongPieces(ps[1..])
  }

  /** An occurrence in a suffix is an occurrence in the whole string. */
  lemma OccursInSuffix(s: string, j: nat, p: string, k: int)
    requires j <= |s| && OccursAt(s[j..], p, k)
    ensures OccursAt(s, p, j + k)
  {
    assert s[j + k..j + k + |p|] == s[j..][k..k + |p|];
  }

  /** Every piece is a piece of the text. */
  lemma {:induction false} PiecesOccur(s: string)
    ensures forall p :: p in Pieces(s) ==> Includes(s, p)
    decreases |s|
  {
    if !NoSeparator(s) {
      var i := FirstSeparator(s);
      var j := RunEnd(s, i);
      assert OccursAt(s, s[..i], 0);
      PiecesOccur(s[j..]);
      forall p | p in Pieces(s[j..]) ensures Includes(s, p) {
        var k :| 0 <= k <= |s[j..]| && OccursAt(s[j..], p, k);
        OccursInSuffix(s, j, p, k);
      }
    } else {
      assert s[0..|s|] == s;
      assert OccursAt(s, s, 0);
    }
  }

  /** Each token is longer than two characters, holds no separator, and occurs in the text. */
  lemma TokensSound(s: string)
    ensures forall t :: t in Tokens(s) ==> |t| > 2 && NoSeparator(t) && Includes(s, t)
  {
    PiecesOccur(s);
  }

  /** A text of separators only yields no token. */
  lemma {:induction false} SeparatorsOnlyNoTokens(s: string)
    requires forall k :: 0 <= k < |s| ==> IsSeparator(s[k])
    ensures Tokens(s) == []
  {
    if s != [] {
      assert IsSeparator(s[0]);
      assert FirstSeparator(s) == 0;
      var j := RunEnd(s, 0);
      assert j == |s|;
      assert s[j..] == "" && s[..0] == "";
      assert Pieces(s) == ["", ""];
      assert LongPieces(["", ""]) == [] by {
        assert ["", ""][1..] == [""];
        assert [""][1..] == [];
      }
    } else {
      assert Pieces(s) == [""];
      assert [""][1..] == [];
    }
  }

  // ---------------------------------------------------------------------------------------
  // Matching tokens against the vocabulary list

  /** The entry `vocabularyList.find` returns for a token: the first whose lowercased German
      contains the lowercased token. */
  function MatchOf(vocab: seq<VocabEntry>, token: string): (r: Option<nat>)
    ensures r.Some? ==> r.value < |vocab| && Includes(Lower(vocab[r.value].german), Lower(token))
    ensures r.Some? ==> forall k :: 0 <= k < r.value ==> !Includes(Lower(vocab[k].german), Lower(token))
    ensures r.None? <==> forall k :: 0 <= k < |vocab| ==> !Includes(Lower(vocab[k].german), Lower(token))
  {
    Seqs.FirstIndex(vocab, (v: VocabEntry) => Includes(Lower(v.german), Lower(token)))
  }

  /** What the tokens `ts` contribute, in token order: the matched entry of each. */
  function Extracted(ts: seq<string>, vocab: seq<VocabEntry>): (r: seq<Pair>)
    ensures |r| <= |ts|
    ensures forall w :: w in r ==> exists k :: 0 <= k < |vocab| && w == Pair(vocab[k].german, vocab[k].english)
  {
    if ts == [] then []
    else
      var prev := Extracted(ts[..|ts| - 1], vocab);
      match MatchOf(vocab, ts[|ts| - 1])
      case Some(k) => prev + [Pair(vocab[k].german, vocab[k].english)]
      case None => prev
  }

  /** Extraction distributes over concatenation: the output follows the token order. */
  lemma {:induction false} ExtractedAppend(a: seq<string>, b: seq<string>, vocab: seq<VocabEntry>)
    ensures Extracted(a + b, vocab) == Extracted(a, vocab) + Extracted(b, vocab)
    decreases |b|
  {
    if b == [] {
      assert a + b == a;
    } else {
      assert (a + b)[..|a + b| - 1] == a + b[..|b| - 1];
      ExtractedAppend(a, b[..|b| - 1], vocab);
    }
  }

  /** A single token contributes its first match, or nothing when no entry matches. */
  lemma ExtractedOne(t: string, vocab: seq<VocabEntry>)
    ensures MatchOf(vocab, t).None? ==> Extracted([t], vocab) == []
    ensures MatchOf(vocab, t).Some? ==>
      var k := MatchOf(vocab, t).value;
      Extracted([t], vocab) == [Pair(vocab[k].german, vocab[k].english)]
  {
    assert [t][..0] == [];
  }

  /** A token equal to an entry's German text, up to case, always emits something, so repeats
      of such a token emit repeats. */
  lemma ExactTokenMatches(vocab: seq<VocabEntry>, k: nat, t: string)
    requires k < |vocab| && Lower(t) == Lower(vocab[k].german)
    ensures MatchOf(vocab, t).Some?
    ensures |Extracted([t, t], vocab)| == 2
  {
    IncludesSelf(Lower(t));
    ExtractedOne(t, vocab);
    ExtractedAppend([t], [t], vocab);
    assert [t] + [t] == [t, t];
  }

  /** `extractNewVocabulary`: the loop over the tokens that pushes each token's match. */
  method ExtractNewVocabulary(germanText: string, vocab: seq<VocabEntry>) returns (words: seq<Pair>)
    ensures words == Extracted(Tokens(germanText), vocab)
  {
    var ts := Tokens(germanText);
    words := [];
    var i := 0;
    while i < |ts|
      invariant 0 <= i <= |ts|
      invariant words == Extracted(ts[..i], vocab)
    {
      var word := ts[i];
      assert ts[..i + 1][..i] == ts[..i];
      var found := MatchOf(vocab, word);
      if found.Some? {
        var v := vocab[found.value];
        words := words + [Pair(v.german, v.english)];
      }
      i := i + 1;
    }
    assert ts[..i] == ts;
  }

  // ---------------------------------------------------------------------------------------
  // The detected-word list

  /** No two entries share a German text. */
  predicate Distinct(s: seq<Pair>) {
    forall i, j :: 0 <= i < j < |s| ==> s[i].german != s[j].german
  }

  predicate HasGermanIn(s: seq<Pair>, g: string) {
    exists j :: 0 <= j < |s| && s[j].german == g
  }

  /** The filter `arr.findIndex(w => w.german === word.german) === idx`: each element is kept
      exactly when no earlier element has the same German text. */
  function Dedup(s: seq<Pair>): (r: seq<Pair>)
    ensures |r| <= |s|
    ensures forall w :: w in r ==> w in s
    ensures forall i, j :: 0 <= i < j < |r| ==> r[i].german != r[j].german
    ensures forall g :: HasGermanIn(r, g) <==> HasGermanIn(s, g)
  {
    if s == [] then []
    else
      var init := s[..|s| - 1];
      var last := s[|s| - 1];
      var prev := Dedup(init);
      assert forall w :: w in init ==> w in s;
      assert forall g :: HasGermanIn(init, g) ==> HasGermanIn(s, g) by {
        forall g | HasGermanIn(init, g) ensures HasGermanIn(s, g) {
          var j :| 0 <= j < |init| && init[j].german == g;
          assert s[j] == init[j];
        }
      }
      assert forall g :: HasGermanIn(s, g) && g != last.german ==> HasGermanIn(init, g) by {
        forall g | HasGermanIn(s, g) && g != last.german ensures HasGermanIn(init, g) {
          var j :| 0 <= j < |s| && s[j].german == g;
          assert init[j] == s[j];
        }
      }
      if HasGermanIn(init, last.german) then prev
      else
        var r := prev + [last];
        assert forall g :: HasGermanIn(r, g) ==> HasGermanIn(prev, g) || g == last.german by {
          forall g | HasGermanIn(r, g) ensures HasGermanIn(prev, g) || g == last.german {
            var j :| 0 <= j < |r| && r[j].german == g;
            if j < |prev| { assert r[j] == prev[j]; }
          }
        }
        assert forall g :: HasGermanIn(prev, g) ==> HasGermanIn(r, g) by {
          forall g | HasGermanIn(prev, g) ensures HasGermanIn(r, g) {
            var j :| 0 <= j < |prev| && prev[j].german == g;
            assert r[j] == prev[j];
          }
        }
        assert r[|prev|] == last;
        assert HasGermanIn(r, last.german);
        r
  }

  /** The element kept for a German text is the first one with that text. */
  lemma {:induction false} DedupKeepsFirst(s: seq<Pair>, i: nat)
    requires i < |s| && !HasGermanIn(s[..i], s[i].german)
    ensures s[i] in Dedup(s)
    decreases |s|
  {
    var init := s[..|s| - 1];
    if i < |s| - 1 {
      assert init[..i] == s[..i];
      DedupKeepsFirst(init, i);
    } else {
      assert init == s[..i];
      assert Dedup(s) == Dedup(init) + [s[i]];
    }
  }

  /** A list whose German texts are already distinct is left as it is. */
  lemma {:induction false} DedupDistinct(s: seq<Pair>)
    requires forall i, j :: 0 <= i < j < |s| ==> s[i].german != s[j].german
    ensures Dedup(s) == s
  {
    if s != [] {
      var init := s[..|s| - 1];
      DedupDistinct(init);
      assert !HasGermanIn(init, s[|s| - 1].german);
      assert init + [s[|s| - 1]] == s;
    }
  }

  /** De-duplicating twice is de-duplicating once. */
  lemma DedupIdempotent(s: seq<Pair>)
    ensures Dedup(Dedup(s)) == Dedup(s)
  {
    DedupDistinct(Dedup(s));
  }

  /** Merging keeps an already distinct list as the untouched prefix: later duplicates are
      dropped and earlier entries keep their place. */
  lemma {:induction false} DedupKeepsPrefix(prev: seq<Pair>, more: seq<Pair>)
    requires forall i, j :: 0 <= i < j < |prev| ==> prev[i].german != prev[j].german
    ensures |Dedup(prev + more)| >= |prev| && Dedup(prev + more)[..|prev|] == prev
    decreases |more|
  {
    if more == [] {
      assert prev + more == prev;
      DedupDistinct(prev);
    } else {
      var s := prev + more;
      assert s[..|s| - 1] == prev + more[..|more| - 1];
      DedupKeepsPrefix(prev, more[..|more| - 1]);
    }
  }

  /** The merge of newly extracted words: `[...prev, ...newWords]` de-duplicated. */
  function Merge(prev: seq<Pair>, newWords: seq<Pair>): seq<Pair> {
    Dedup(prev + newWords)
  }

  /** `detectedWords.filter(w => w.german !== g)`. */
  function WithoutGerman(s: seq<Pair>, g: string): (r: seq<Pair>)
    ensures forall w :: w in r <==> w in s && w.german != g
    ensures !HasGermanIn(r, g)
  {
    if s == [] then []
    else
      var rest := WithoutGerman(s[1..], g);
      var r := (if s[0].german != g then [s[0]] else []) + rest;
      assert forall j :: 0 <= j < |r| ==> r[j] in r;
      r
  }

  /** Removal keeps the relative order: it distributes over concatenation. */
  lemma {:induction false} WithoutGermanAppend(a: seq<Pair>, b: seq<Pair>, g: string)
    ensures WithoutGerman(a + b, g) == WithoutGerman(a, g) + WithoutGerman(b, g)
  {
    if a == [] {
      assert a + b == b;
    } else {
      assert (a + b)[1..] == a[1..] + b;
      WithoutGermanAppend(a[1..], b, g);
    }
  }

  /** Removal keeps the German texts distinct. */
  lemma {:induction false} WithoutGermanKeepsDistinct(s: seq<Pair>, g: string)
    requires Distinct(s)
    ensures Distinct(WithoutGerman(s, g))
  {
    if s != [] {
      assert Distinct(s[1..]) by {
        forall i, j | 0 <= i < j < |s[1..]| ensures s[1..][i].german != s[1..][j].german {
          assert s[1..][i] == s[i + 1] && s[1..][j] == s[j + 1];
        }
      }
      WithoutGermanKeepsDistinct(s[1..], g);
      var rest := WithoutGerman(s[1..], g);
      if s[0].german != g {
        forall j | 0 <= j < |rest| ensures rest[j].german != s[0].german {
          assert rest[j] in rest;
          var k :| 0 <= k < |s[1..]| && s[1..][k] == rest[j];
          assert s[k + 1] == rest[j];
        }
        DistinctCons(s[0], rest);
      }
    }
  }

  /** Putting in front an element whose German text the rest lacks keeps a list distinct. */
  lemma DistinctCons(x: Pair, rest: seq<Pair>)
    requires Distinct(rest)
    requires forall j :: 0 <= j < |rest| ==> rest[j].german != x.german
    ensures Distinct([x] + rest)
  {
    var r := [x] + rest;
    forall i, j | 0 <= i < j < |r| ensures r[i].german != r[j].german {
      assert r[j] == rest[j - 1];
      if i > 0 { assert r[i] == rest[i - 1]; }
    }
  }

  /** The detected words after a reply: the words found in it merged in, when there are any. */
  function Detected(prev: seq<Pair>, response: string, vocab: seq<VocabEntry>): seq<Pair> {
    var found := Extracted(Tokens(response), vocab);
    if found == [] then prev else Merge(prev, found)
  }

  /** A reply never removes or reorders detected words. */
  lemma DetectedKeepsPrefix(prev: seq<Pair>, response: string, vocab: seq<VocabEntry>)
    requires Distinct(prev)
    ensures var r := Detected(prev, response, vocab);
      Distinct(r) && |r| >= |prev| && r[..|prev|] == prev
  {
    var found := Extracted(Tokens(response), vocab);
    if found != [] {
      MergeKeepsDistinct(prev, found);
    } else {
      assert prev[..|prev|] == prev;
    }
  }

  // ---------------------------------------------------------------------------------------
  // The chat component

  /** Merging into a distinct list gives a distinct list that starts with it. */
  lemma MergeKeepsDistinct(prev: seq<Pair>, more: seq<Pair>)
    requires Distinct(prev)
    ensures Distinct(Merge(prev, more))
    ensures |Merge(prev, more)| >= |prev| && Merge(prev, more)[..|prev|] == prev
  {
    DedupKeepsPrefix(prev, more);
  }

  class Session {
    const lessonTitle: string
    const themeId: string
    const vocabularyList: seq<VocabEntry>
    var messages: seq<Message>
    var input: string
    var isLoading: bool
    var detectedWords: seq<Pair>

    ghost predicate Valid()
      reads this
    {
      |messages| >= 1 && messages[0] == Message(Assistant, Welcome(lessonTitle))
      && Distinct(detectedWords)
    }

    /** Mounting: the message list is empty, so the welcome message is put in. */
    constructor (lessonTitle: string, themeId: string, vocabularyList: seq<VocabEntry>)
      ensures Valid()
      ensures this.lessonTitle == lessonTitle && this.themeId == themeId
      ensures this.vocabularyList == vocabularyList
      ensures messages == [Message(Assistant, Welcome(lessonTitle))]
      ensures input == "" && !isLoading && detectedWords == []
    {
      this.lessonTitle := lessonTitle;
      this.themeId := themeId;
      this.vocabularyList := vocabularyList;
      messages := [Message(Assistant, Welcome(lessonTitle))];
      input := "";
      isLoading := false;
      detectedWords := [];
    }

    /** Choosing one of the conversation prompts fills the input with it. */
    method SelectPrompt(prompt: string)
      modifies this
      ensures input == prompt
      ensures messages == old(messages) && isLoading == old(isLoading)
      ensures detectedWords == old(detectedWords)
    {
      input := prompt;
    }

    /** Submitting: nothing happens for a blank input or while a reply is pending; otherwise
        the input, untrimmed, becomes the user message, is returned as the text to send, and
        the input is cleared. */
    method Submit() returns (sent: Option<string>)
      requires Valid()
      modifies this
      ensures Valid()
      ensures sent.Some? <==> Trim(old(input)) != [] && !old(isLoading)
      ensures sent.None? ==>
        messages == old(messages) && input == old(input) && isLoading == old(isLoading)
      ensures sent.Some? ==>
        sent.value == old(input) && messages == old(messages) + [Message(User, old(input))]
        && input == "" && isLoading
      ensures detectedWords == old(detectedWords)
    {
      if Trim(input) == [] || isLoading {
        return None;
      }
      sent := Some(input);
      messages := messages + [Message(User, input)];
      input := "";
      isLoading := true;
    }

    /** The reply arrives: its text becomes the assistant message and the vocabulary found in
        it is merged into the detected words; a failure appends the error message instead. A
        body without `response` first posts an empty assistant message; the extractor then
        fails on the missing text, so the error message follows it. */
    method Settle(reply: Reply)
      requires Valid()
      modifies this
      ensures Valid() && !isLoading && input == old(input)
      ensures reply.Failed? ==>
        messages == old(messages) + [Message(Assistant, ErrorReply)]
        && detectedWords == old(detectedWords)
      ensures reply.NoResponse? ==>
        messages == old(messages) + [Message(Assistant, MissingContent), Message(Assistant, ErrorReply)]
        && detectedWords == old(detectedWords)
      ensures reply.Received? ==>
        messages == old(messages) + [Message(Assistant, reply.response)]
        && detectedWords == Detected(old(detectedWords), reply.response, vocabularyList)
    {
      if reply.Received? {
        Post([Message(Assistant, reply.response)]);
        var newWords := ExtractNewVocabulary(reply.response, vocabularyList);
        AddDetected(newWords);
      } else if reply.Failed? {
        Post([Message(Assistant, ErrorReply)]);
      } else {
        Post([Message(Assistant, MissingContent), Message(Assistant, ErrorReply)]);
      }
      isLoading := false;
    }

    /** `setMessages(prev => [...prev, ...added])`. */
    method Post(added: seq<Message>)
      requires Valid()
      modifies this
      ensures Valid() && messages == old(messages) + added
      ensures input == old(input) && isLoading == old(isLoading) && detectedWords == old(detectedWords)
    {
      assert (messages + added)[0] == messages[0];
      messages := messages + added;
    }

    /** `setDetectedWords` with the words a reply brought; no words leave the list alone. */
    method AddDetected(newWords: seq<Pair>)
      requires Valid()
      modifies this
      ensures Valid()
      ensures detectedWords == if newWords == [] then old(detectedWords) else Merge(old(detectedWords), newWords)
      ensures messages == old(messages) && input == old(input) && isLoading == old(isLoading)
    {
      if |newWords| > 0 {
        MergeKeepsDistinct(detectedWords, newWords);
        detectedWords := Merge(detectedWords, newWords);
      }
    }

    /** Adding a detected word stores it as a beginner word of the lesson's theme, then drops
        every detected entry with that German text, whether or not the store took it. */
    method AddToVocabulary(word: Pair, store: VocabularyContext.Provider, now: int)
      requires Valid() && store.Valid()
      modifies this, store
      ensures Valid() && store.Valid()
      ensures store.signedIn && !VocabularyContext.HasGerman(old(store.words), word.german) ==>
        store.words == VocabularyContext.AfterAdd(old(store.words), old(store.nextId), word.german,
          word.english, None, Some(themeId), Some(VocabularyContext.Beginner), now)
      ensures !store.signedIn || VocabularyContext.HasGerman(old(store.words), word.german) ==>
        store.words == old(store.words)
      ensures detectedWords == WithoutGerman(old(detectedWords), word.german)
      ensures messages == old(messages) && input == old(input) && isLoading == old(isLoading)
    {
      store.AddWord(word.german, word.english, None, Some(themeId), Some(VocabularyContext.Beginner), now);
      WithoutGermanKeepsDistinct(detectedWords, word.german);
      detectedWords := WithoutGerman(detectedWords, word.german);
    }
  }
}

/**
 * Claim extraction (`ClaimProcessor` in utils/nlp_processor.py): a lexical heuristic
 * that splits text on '.', tags capitalised and digit-bearing words, keeps the
 * sentences that look like factual claims and gives each a confidence in [0.5, 1].
 */
module ClaimProcessor {
  import opened Text
  import opened Picking

  datatype EntityKind = Entity | Number

  /** A `(word, 'ENTITY')` or `(word, 'NUMBER')` pair. */
  datatype Tagged = Tagged(word: string, kind: EntityKind)

  datatype Claim = Claim(text: string, entities: seq<Tagged>, confidence: real)

  /** The processor's state: the phrases whose presence (in the lower-cased sentence) marks a claim. */
  datatype Processor = Processor(claimIndicators: seq<string>)

  /** `ClaimProcessor()`: the fixed indicator list of the constructor. */
  function NewProcessor(): (p: Processor)
    ensures |p.claimIndicators| == 21
    ensures "according to" in p.claimIndicators && "reported" in p.claimIndicators
  {
    Processor([
      "according to", "reported", "estimates", "shows", "found", "suggests",
      "stated", "announced", "revealed", "confirmed", "indicates", "claims",
      "discovered", "proves", "demonstrates", "recently", "new study",
      "research shows", "scientists", "experts say", "evidence"
    ])
  }

  /** Some phrase of `phrases` occurs in `s`. */
  predicate AnyOccurs(s: string, phrases: seq<string>)
    ensures AnyOccurs(s, phrases) <==> exists i :: 0 <= i < |phrases| && Contains(s, phrases[i])
  {
    if |phrases| == 0 then false
    else Contains(s, phrases[0]) || AnyOccurs(s, phrases[1..])
  }

  /** `any(indicator in sentence.lower() for indicator in self.claim_indicators)` */
  predicate HasClaimIndicator(p: Processor, sentence: string) {
    AnyOccurs(Lower(sentence), p.claimIndicators)
  }

  /** `word[0].isupper() and len(word) > 1` */
  predicate IsCapitalised(w: string) {
    |w| > 1 && IsUpper(w[0])
  }

  // ---------------------------------------------------------------------------
  // Sentences
  // ---------------------------------------------------------------------------

  /** A fragment that survives `[s.strip() for s in text.split('.') if s.strip()]`. */
  predicate IsSentence(s: string) {
    |s| > 0 && '.' !in s && !IsSpace(s[0]) && !IsSpace(s[|s| - 1])
  }

  lemma StripKeepsOut(s: string, c: char)
    requires c !in s
    ensures c !in Strip(s)
  {
    var r := Strip(s);
    var a :| SliceAt(s, r, a);
    SliceKeepsOut(s, r, a, c);
  }

  /** A piece without '.' that does not strip to nothing strips to a sentence. */
  lemma PieceIsSentence(piece: string)
    requires '.' !in piece && |Strip(piece)| > 0
    ensures IsSentence(Strip(piece))
  {
    StripKeepsOut(piece, '.');
  }

  /** `piece.strip()` for a piece of the split: nothing, or a sentence. */
  function StrippedPiece(piece: string): (s: string)
    requires '.' !in piece
    ensures s == [] || IsSentence(s)
  {
    if |Strip(piece)| > 0 then PieceIsSentence(piece); Strip(piece) else []
  }

  /** The stripped, non-empty pieces of `parts`, in order. */
  function StrippedPieces(parts: seq<string>): (ss: seq<string>)
    requires forall j :: 0 <= j < |parts| ==> '.' !in parts[j]
    ensures forall i :: 0 <= i < |ss| ==> IsSentence(ss[i])
    ensures |ss| <= |parts|
  {
    if |parts| == 0 then []
    else
      var s := StrippedPiece(parts[0]);
      var rest := StrippedPieces(parts[1..]);
      if |s| > 0 then [s] + rest else rest
  }

  function Sentences(text: string): (ss: seq<string>)
    ensures forall i :: 0 <= i < |ss| ==> IsSentence(ss[i])
  {
    StrippedPieces(SplitOn(text, '.'))
  }

  /** Every piece, stripped. */
  function StripEach(parts: seq<string>): (ss: seq<string>)
    ensures |ss| == |parts|
  {
    if |parts| == 0 then [] else [Strip(parts[0])] + StripEach(parts[1..])
  }

  /** Which pieces strip to something. */
  function NonBlank(parts: seq<string>): (bs: seq<bool>)
    ensures |bs| == |parts|
  {
    if |parts| == 0 then [] else [|Strip(parts[0])| > 0] + NonBlank(parts[1..])
  }

  /** The list comprehension as a filter: the stripped pieces that are not blank, in the order
      of the pieces. */
  lemma {:induction false} StrippedPiecesArePicked(parts: seq<string>)
    requires forall j :: 0 <= j < |parts| ==> '.' !in parts[j]
    ensures StrippedPieces(parts) == Pick(StripEach(parts), NonBlank(parts))
  {
    if |parts| > 0 {
      var tail := parts[1..];
      var h := Strip(parts[0]);
      var xs, bs := StripEach(parts), NonBlank(parts);
      assert xs == [h] + StripEach(tail) && bs == [|h| > 0] + NonBlank(tail);
      assert xs[1..] == StripEach(tail) && bs[1..] == NonBlank(tail);
      StrippedPiecesArePicked(tail);
      assert StrippedPieces(parts) == (if |h| > 0 then [h] else []) + StrippedPieces(tail);
    }
  }

  /** A piece that does not strip to nothing is kept, stripped; and every kept sentence is some
      piece, stripped. */
  lemma {:induction false} StrippedPiecesMembers(parts: seq<string>)
    requires forall j :: 0 <= j < |parts| ==> '.' !in parts[j]
    ensures forall j :: 0 <= j < |parts| && |Strip(parts[j])| > 0 ==> Strip(parts[j]) in StrippedPieces(parts)
    ensures forall s :: s in StrippedPieces(parts) ==> exists j :: 0 <= j < |parts| && s == Strip(parts[j])
  {
    if |parts| > 0 {
      var tail := parts[1..];
      StrippedPiecesMembers(tail);
      forall j | 0 <= j < |parts| && |Strip(parts[j])| > 0
        ensures Strip(parts[j]) in StrippedPieces(parts)
      {
        if j > 0 {
          assert parts[j] == tail[j - 1];
        }
      }
      forall s | s in StrippedPieces(parts)
        ensures exists j :: 0 <= j < |parts| && s == Strip(parts[j])
      {
        if s !in StrippedPieces(tail) {
          assert s == Strip(parts[0]);
        } else {
          var j :| 0 <= j < |tail| && s == Strip(tail[j]);
          assert tail[j] == parts[j + 1];
        }
      }
    }
  }

  /** `[s.strip() for s in text.split('.') if s.strip()]`: the pieces between the periods
      (which join back to the text) are stripped, the blank ones are dropped, and the rest keep
      their order; a piece that is not blank gives a sentence and every sentence comes from a
      piece. */
  lemma SentencesOfText(text: string)
    ensures var parts := SplitOn(text, '.');
      && Join(parts, ".") == text
      && Sentences(text) == Pick(StripEach(parts), NonBlank(parts))
      && (forall j :: 0 <= j < |parts| && |Strip(parts[j])| > 0 ==> Strip(parts[j]) in Sentences(text))
      && (forall s :: s in Sentences(text) ==> exists j :: 0 <= j < |parts| && s == Strip(parts[j]))
  {
    var parts := SplitOn(text, '.');
    JoinSplit(text, '.');
    StrippedPiecesArePicked(parts);
    StrippedPiecesMembers(parts);
  }

  // ---------------------------------------------------------------------------
  // Entities
  // ---------------------------------------------------------------------------

  /** The tags of one word: ENTITY first when capitalised, then NUMBER when it holds a digit. */
  function TagWord(w: string): (ts: seq<Tagged>)
    ensures Tagged(w, Entity) in ts <==> IsCapitalised(w)
    ensures Tagged(w, Number) in ts <==> HasDigit(w)
    ensures forall t :: t in ts ==> t.word == w
    ensures IsCapitalised(w) && HasDigit(w) ==> ts == [Tagged(w, Entity), Tagged(w, Number)]
    ensures |ts| == (if IsCapitalised(w) then 1 else 0) + (if HasDigit(w) then 1 else 0)
  {
    (if IsCapitalised(w) then [Tagged(w, Entity)] else [])
    + (if HasDigit(w) then [Tagged(w, Number)] else [])
  }

  /** The entity list of a sentence: the tags of its words, word by word. */
  function TagWords(ws: seq<string>): seq<Tagged> {
    if |ws| == 0 then [] else TagWord(ws[0]) + TagWords(ws[1..])
  }

  /** Each tag names a word of the sentence and fits its kind; every capitalised word yields an
      ENTITY tag and every digit-bearing word a NUMBER tag. */
  lemma {:induction false} TagWordsSound(ws: seq<string>)
    ensures forall t :: t in TagWords(ws) ==> t.word in ws
    ensures forall t :: t in TagWords(ws) ==>
      (t.kind == Entity ==> IsCapitalised(t.word)) && (t.kind == Number ==> HasDigit(t.word))
    ensures forall w :: w in ws && IsCapitalised(w) ==> Tagged(w, Entity) in TagWords(ws)
    ensures forall w :: w in ws && HasDigit(w) ==> Tagged(w, Number) in TagWords(ws)
  {
    if |ws| > 0 {
      TagWordsSound(ws[1..]);
      assert forall w :: w in ws ==> w == ws[0] || w in ws[1..];
      var head := TagWord(ws[0]);
      assert forall t :: t in TagWords(ws) ==> t in head || t in TagWords(ws[1..]);
    }
  }

  // ---------------------------------------------------------------------------
  // Confidence and the claim test
  // ---------------------------------------------------------------------------

  /** `_calculate_confidence`: 0.5 plus the entity, indicator, length and structure bonuses, capped at 1. */
  function Confidence(wordCount: nat, entityCount: nat, hasClaim: bool): (c: real)
    ensures 0.5 <= c <= 1.0
    ensures entityCount > 0 && wordCount >= 3 ==> c >= 0.7
    ensures hasClaim ==> c >= 0.7
  {
    var c := 0.5
      + (if entityCount > 2 then 0.2 else if entityCount > 0 then 0.1 else 0.0)
      + (if hasClaim then 0.2 else 0.0)
      + (if wordCount > 5 then 0.1 else 0.0)
      + (if entityCount > 0 && wordCount >= 3 then 0.1 else 0.0);
    if c < 1.0 then c else 1.0
  }

  /** What the loop body of `extract_claims` computes about one sentence. */
  datatype Analysis = Analysis(words: seq<string>, entities: seq<Tagged>, hasClaim: bool, hasNumbers: bool)

  function Analyse(p: Processor, s: string): (a: Analysis)
    ensures a.words == Words(s) && a.entities == TagWords(Words(s))
    ensures a.hasClaim == HasClaimIndicator(p, s) && a.hasNumbers == HasDigit(s)
  {
    var words := Words(s);
    Analysis(words, TagWords(words), HasClaimIndicator(p, s), HasDigit(s))
  }

  /** What the analysis means: the words are the sentence's non-empty runs of non-whitespace;
      `hasNumbers` holds exactly when one of them holds a digit; `hasClaim` exactly when some
      indicator occurs in the lower-cased sentence; and the tags are exactly the capitalised
      and digit-bearing words, each with its kind. */
  lemma AnalyseMeaning(p: Processor, s: string)
    ensures var a := Analyse(p, s);
      && (forall i :: 0 <= i < |a.words| ==> IsWord(a.words[i]))
      && (a.hasNumbers <==> AnyHasDigit(a.words))
      && (a.hasClaim <==> exists i :: 0 <= i < |p.claimIndicators| && Contains(Lower(s), p.claimIndicators[i]))
      && (forall t :: t in a.entities ==> t.word in a.words)
      && (forall t :: t in a.entities ==>
            (t.kind == Entity ==> IsCapitalised(t.word)) && (t.kind == Number ==> HasDigit(t.word)))
      && (forall w :: w in a.words && IsCapitalised(w) ==> Tagged(w, Entity) in a.entities)
      && (forall w :: w in a.words && HasDigit(w) ==> Tagged(w, Number) in a.entities)
  {
    WordsAreWords(s);
    DigitInWords(s);
    TagWordsSound(Words(s));
  }

  /** The claim test of `extract_claims`: at least three words, and an indicator, or a
      statement of four or more words with an entity, or an entity and a digit. */
  predicate Emits(a: Analysis) {
    && |a.words| >= 3
    && (|| a.hasClaim
        || (|a.words| >= 4 && |a.entities| > 0)
        || (|a.entities| > 0 && a.hasNumbers))
  }

  predicate IsClaimSentence(p: Processor, s: string) {
    Emits(Analyse(p, s))
  }

  /** The sentence a claim text was made from: the text without its final '.'. */
  function Stem(c: Claim): string {
    if |c.text| > 0 then c.text[..|c.text| - 1] else c.text
  }

  /** The shape every emitted claim has: one '.' appended to a '.'-free, non-empty sentence, and
      a confidence in [0.5, 1]. */
  predicate WellShaped(c: Claim) {
    && |c.text| >= 2
    && c.text[|c.text| - 1] == '.'
    && '.' !in Stem(c)
    && 0.5 <= c.confidence <= 1.0
  }

  /** The claim record built for an emitted sentence: `sentence` when it already ends with '.',
      otherwise `sentence + '.'`. */
  function ClaimOf(p: Processor, s: string): (c: Claim)
    ensures IsSentence(s) ==> WellShaped(c) && Stem(c) == s
    ensures c.entities == TagWords(Words(s))
  {
    var a := Analyse(p, s);
    var text := if |s| > 0 && s[|s| - 1] == '.' then s else s + ".";
    assert IsSentence(s) ==> text[..|text| - 1] == s;
    Claim(text, a.entities, Confidence(|a.words|, |a.entities|, a.hasClaim))
  }

  function ClaimsOf(p: Processor, s: string): (cs: seq<Claim>)
    ensures |cs| <= 1
    ensures IsSentence(s) ==> forall k :: 0 <= k < |cs| ==> WellShaped(cs[k]) && Stem(cs[k]) == s
  {
    if IsClaimSentence(p, s) then [ClaimOf(p, s)] else []
  }

  /** The loop of `extract_claims` over the sentences, keeping the claims in order. */
  function ExtractFrom(p: Processor, ss: seq<string>): (cs: seq<Claim>)
    requires forall i :: 0 <= i < |ss| ==> IsSentence(ss[i])
    ensures |cs| <= |ss|
  {
    if |ss| == 0 then []
    else
      var head := ClaimsOf(p, ss[0]);
      var rest := ExtractFrom(p, ss[1..]);
      head + rest
  }

  /** Each claim the loop emits is one '.' appended to one of the sentences. */
  lemma {:induction false} ExtractFromShape(p: Processor, ss: seq<string>)
    requires forall i :: 0 <= i < |ss| ==> IsSentence(ss[i])
    ensures forall k :: 0 <= k < |ExtractFrom(p, ss)| ==>
      WellShaped(ExtractFrom(p, ss)[k]) && Stem(ExtractFrom(p, ss)[k]) in ss
  {
    if |ss| > 0 {
      ExtractFromShape(p, ss[1..]);
      var head := ClaimsOf(p, ss[0]);
      var rest := ExtractFrom(p, ss[1..]);
      var cs := ExtractFrom(p, ss);
      assert cs == head + rest;
      forall k | 0 <= k < |cs|
        ensures WellShaped(cs[k]) && Stem(cs[k]) in ss
      {
        if k < |head| {
          assert cs[k] == head[k];
        } else {
          assert cs[k] == rest[k - |head|];
          assert Stem(cs[k]) in ss[1..];
        }
      }
    }
  }

  /** `ClaimProcessor.extract_claims`. Every claim is one '.' appended to one of the stripped
      '.'-fragments of the text, and its confidence lies in [0.5, 1]. */
  function ExtractClaims(p: Processor, text: string): (cs: seq<Claim>)
    ensures forall k :: 0 <= k < |cs| ==> WellShaped(cs[k]) && Stem(cs[k]) in Sentences(text)
  {
    ExtractFromShape(p, Sentences(text));
    ExtractFrom(p, Sentences(text))
  }

  /** The outcome of the claim test for each sentence. */
  function ClaimFlags(p: Processor, ss: seq<string>): (bs: seq<bool>)
    ensures |bs| == |ss|
    ensures forall i :: 0 <= i < |ss| ==> bs[i] == IsClaimSentence(p, ss[i])
  {
    seq(|ss|, i requires 0 <= i < |ss| => IsClaimSentence(p, ss[i]))
  }

  /** The claim record each sentence would give. */
  function ClaimRecords(p: Processor, ss: seq<string>): (cs: seq<Claim>)
    ensures |cs| == |ss|
    ensures forall i :: 0 <= i < |ss| ==> cs[i] == ClaimOf(p, ss[i])
  {
    seq(|ss|, i requires 0 <= i < |ss| => ClaimOf(p, ss[i]))
  }

  /** The loop keeps the records of the sentences that pass the claim test. */
  lemma {:induction false} ExtractIsPick(p: Processor, ss: seq<string>)
    requires forall i :: 0 <= i < |ss| ==> IsSentence(ss[i])
    ensures ExtractFrom(p, ss) == Pick(ClaimRecords(p, ss), ClaimFlags(p, ss))
  {
    if |ss| > 0 {
      ExtractIsPick(p, ss[1..]);
      assert ClaimRecords(p, ss)[1..] == ClaimRecords(p, ss[1..]);
      assert ClaimFlags(p, ss)[1..] == ClaimFlags(p, ss[1..]);
    }
  }

  /** The indices of the sentences the loop turns into claims. */
  function ClaimIndices(p: Processor, ss: seq<string>): seq<nat> {
    TrueIndices(ClaimFlags(p, ss))
  }

  /** `extract_claims` is exactly the order-preserving filter of the claim sentences: its
      claims are those of the sentences at strictly increasing indices, and a sentence's index
      is among them if and only if it passes the claim test. */
  lemma ExtractKeepsOrder(p: Processor, text: string)
    ensures var ss := Sentences(text); var idx := ClaimIndices(p, ss);
      && |ExtractClaims(p, text)| == |idx|
      && (forall k :: 0 <= k < |idx| ==> ExtractClaims(p, text)[k] == ClaimOf(p, ss[idx[k]]))
      && (forall k, l :: 0 <= k < l < |idx| ==> idx[k] < idx[l])
      && (forall i :: 0 <= i < |ss| ==> (IsClaimSentence(p, ss[i]) <==> i in idx))
  {
    var ss := Sentences(text);
    var bs := ClaimFlags(p, ss);
    ExtractIsPick(p, ss);
    PickAtTrueIndices(ClaimRecords(p, ss), bs, 0);
    ChainIncreasing(ClaimIndices(p, ss));
    TrueIndicesFromExact(bs, 0);
  }

  /** The claim test, restated: a sentence of at least three words is a claim exactly when it
      holds an indicator, or has four or more words and an entity, or contains a digit (a digit
      always yields a NUMBER tag, so the third clause needs no separate entity check). */
  lemma ClaimTest(p: Processor, s: string)
    requires |Words(s)| >= 3
    ensures IsClaimSentence(p, s) <==>
      || HasClaimIndicator(p, s)
      || (|Words(s)| >= 4 && |TagWords(Words(s))| > 0)
      || HasDigit(s)
  {
    var words := Words(s);
    TagWordsSound(words);
    if HasDigit(s) {
      DigitInWords(s);
      var j :| 0 <= j < |words| && HasDigit(words[j]);
      assert Tagged(words[j], Number) in TagWords(words);
    }
  }

  /** Every emitted claim that has entities has confidence at least 0.7. */
  lemma EntityClaimConfidence(p: Processor, text: string, c: Claim)
    requires c in ExtractClaims(p, text)
    requires |c.entities| > 0
    ensures c.confidence >= 0.7
  {
    var ss := Sentences(text);
    ExtractKeepsOrder(p, text);
    var idx := ClaimIndices(p, ss);
    var k :| 0 <= k < |ExtractClaims(p, text)| && ExtractClaims(p, text)[k] == c;
    ClaimRecordConfidence(p, ss[idx[k]]);
  }

  /** A claim sentence's record with entities has confidence at least 0.7. */
  lemma ClaimRecordConfidence(p: Processor, s: string)
    requires IsClaimSentence(p, s) && |ClaimOf(p, s).entities| > 0
    ensures ClaimOf(p, s).confidence >= 0.7
  {
  }

  // ---------------------------------------------------------------------------
  // get_key_entities
  // ---------------------------------------------------------------------------

  /** The capitalised words, in order. */
  function CapitalisedWords(ws: seq<string>): seq<string> {
    if |ws| == 0 then []
    else (if IsCapitalised(ws[0]) then [ws[0]] else []) + CapitalisedWords(ws[1..])
  }

  /** The digit-bearing words that are not capitalised, in order (the `elif` branch). */
  function PlainNumberWords(ws: seq<string>): seq<string> {
    if |ws| == 0 then []
    else (if !IsCapitalised(ws[0]) && HasDigit(ws[0]) then [ws[0]] else []) + PlainNumberWords(ws[1..])
  }

  /** `ClaimProcessor.get_key_entities`: a dictionary holding 'ENTITY' and/or 'NUMBER' only when
      some word falls in that class; each word is classified at most once, ENTITY first. */
  function KeyEntities(text: string): (r: map<string, seq<string>>)
    ensures "ENTITY" in r <==> exists w :: w in Words(text) && IsCapitalised(w)
    ensures "NUMBER" in r <==> exists w :: w in Words(text) && !IsCapitalised(w) && HasDigit(w)
    ensures r.Keys <= {"ENTITY", "NUMBER"}
    ensures "ENTITY" in r ==> forall w :: w in r["ENTITY"] ==> w in Words(text) && IsCapitalised(w)
    ensures "NUMBER" in r ==> forall w :: w in r["NUMBER"] ==> w in Words(text) && !IsCapitalised(w) && HasDigit(w)
    ensures "ENTITY" in r ==> r["ENTITY"] == CapitalisedWords(Words(text))
    ensures "NUMBER" in r ==> r["NUMBER"] == PlainNumberWords(Words(text))
  {
    var ws := Words(text);
    var ents := CapitalisedWords(ws);
    var nums := PlainNumberWords(ws);
    CapitalisedMembers(ws);
    NumberMembers(ws);
    (if |ents| > 0 then map["ENTITY" := ents] else map[])
    + (if |nums| > 0 then map["NUMBER" := nums] else map[])
  }

  lemma {:induction false} CapitalisedMembers(ws: seq<string>)
    ensures forall w :: w in CapitalisedWords(ws) <==> w in ws && IsCapitalised(w)
    ensures |CapitalisedWords(ws)| > 0 <==> exists w :: w in ws && IsCapitalised(w)
  {
    if |ws| > 0 {
      CapitalisedMembers(ws[1..]);
      assert forall w :: w in ws <==> w == ws[0] || w in ws[1..];
    }
  }

  lemma {:induction false} NumberMembers(ws: seq<string>)
    ensures forall w :: w in PlainNumberWords(ws) <==> w in ws && !IsCapitalised(w) && HasDigit(w)
    ensures |PlainNumberWords(ws)| > 0 <==> exists w :: w in ws && !IsCapitalised(w) && HasDigit(w)
  {
    if |ws| > 0 {
      NumberMembers(ws[1..]);
      assert forall w :: w in ws <==> w == ws[0] || w in ws[1..];
    }
  }

  /** The words of the tags of one kind, in order. */
  function WordsOfKind(ts: seq<Tagged>, kind: EntityKind): seq<string> {
    if |ts| == 0 then []
    else (if ts[0].kind == kind then [ts[0].word] else []) + WordsOfKind(ts[1..], kind)
  }

  lemma WordsOfKindConcat(a: seq<Tagged>, b: seq<Tagged>, kind: EntityKind)
    ensures WordsOfKind(a + b, kind) == WordsOfKind(a, kind) + WordsOfKind(b, kind)
  {
    if |a| == 0 {
      assert a + b == b;
    } else {
      assert (a + b)[0] == a[0];
      assert (a + b)[1..] == a[1..] + b;
      WordsOfKindConcat(a[1..], b, kind);
    }
  }

  /** `get_key_entities` and the tagging of `extract_claims` list the same ENTITY words. */
  lemma {:induction false} KeyEntitiesMatchTags(ws: seq<string>)
    ensures CapitalisedWords(ws) == WordsOfKind(TagWords(ws), Entity)
  {
    if |ws| > 0 {
      KeyEntitiesMatchTags(ws[1..]);
      WordsOfKindConcat(TagWord(ws[0]), TagWords(ws[1..]), Entity);
    }
  }

  /** A word that is both capitalised and digit-bearing is a NUMBER for `extract_claims` but
      not for `get_key_entities`: the latter's NUMBER words are the former's minus the
      capitalised ones. */
  lemma {:induction false} KeyNumbersVersusTags(ws: seq<string>)
    ensures PlainNumberWords(ws) == CapitalisedFree(WordsOfKind(TagWords(ws), Number))
  {
    if |ws| > 0 {
      KeyNumbersVersusTags(ws[1..]);
      WordsOfKindConcat(TagWord(ws[0]), TagWords(ws[1..]), Number);
      var nums := WordsOfKind(TagWord(ws[0]), Number);
      var rest := WordsOfKind(TagWords(ws[1..]), Number);
      CapitalisedFreeConcat(nums, rest);
    }
  }

  /** The words of `ws` that are not capitalised. */
  function CapitalisedFree(ws: seq<string>): seq<string> {
    if |ws| == 0 then []
    else (if IsCapitalised(ws[0]) then [] else [ws[0]]) + CapitalisedFree(ws[1..])
  }

  lemma CapitalisedFreeConcat(a: seq<string>, b: seq<string>)
    ensures CapitalisedFree(a + b) == CapitalisedFree(a) + CapitalisedFree(b)
  {
    if |a| == 0 {
      assert a + b == b;
    } else {
      assert (a + b)[0] == a[0];
      assert (a + b)[1..] == a[1..] + b;
      CapitalisedFreeConcat(a[1..], b);
    }
  }
}

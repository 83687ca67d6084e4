/** The knowledge loader's document chunker (`KnowledgeLoader.chunk_text`): split the
    stripped text into blank-line paragraphs, pack stripped paragraphs greedily into a
    buffer of at most `size` characters, fall back to whitespace-separated words for a
    paragraph that alone exceeds the budget, and flush the trailing buffer. */
module Chunker {
  import opened Strings
  import opened Slices

  /** `chunk_size`: the loader's character budget per chunk. */
  const ChunkSize: nat := 1000

  /** `chunk_overlap`: set by the loader but never read; chunks do not overlap. */
  const ChunkOverlap: nat := 200

  /** Paragraph separator of the loader. */
  const Blank: string := "\n\n"

  /** One chunk handed to the knowledge service: its text and its metadata. */
  datatype Chunk = Chunk(content: string, metadata: map<string, string>)

  /** The loader's `current_chunk`, kept as the text gathered so far (`body`) and the
      separator appended after it: `" "` after a word, a blank line after a paragraph.
      The string the loader manipulates is `Text()`. */
  datatype Buffer = Buffer(body: string, sep: string) {
    function Text(): string { body + sep }
  }

  const EmptyBuffer := Buffer("", "")

  /** Chunk texts emitted so far, and the open buffer. */
  datatype Packer = Packer(done: seq<string>, buf: Buffer)

  // ---------------------------------------------------------------------------
  // The algorithm
  // ---------------------------------------------------------------------------

  /** The `if current_chunk:` flush: emit the stripped buffer when it is non-empty. */
  function Flush(st: Packer): seq<string> {
    if st.buf.Text() != "" then st.done + [Strip(st.buf.Text())] else st.done
  }

  /** One step of the word loop for an over-long paragraph. */
  function AddWord(size: nat, st: Packer, w: string): Packer {
    if |st.buf.Text()| + |w| > size then Packer(Flush(st), Buffer(w, " "))
    else Packer(st.done, Buffer(st.buf.Text() + w, " "))
  }

  function AddWords(size: nat, st: Packer, ws: seq<string>): Packer
    decreases |ws|
  {
    if ws == [] then st else AddWords(size, AddWord(size, st, ws[0]), ws[1..])
  }

  /** One step of the paragraph loop. */
  function AddParagraph(size: nat, st: Packer, para: string): Packer {
    var p := Strip(para);
    if p == "" then st
    else if |st.buf.Text()| + |p| > size then
      if |p| > size then AddWords(size, Packer(Flush(st), EmptyBuffer), Words(p))
      else Packer(Flush(st), Buffer(p, Blank))
    else Packer(st.done, Buffer(st.buf.Text() + p, Blank))
  }

  function AddParagraphs(size: nat, st: Packer, paras: seq<string>): Packer
    decreases |paras|
  {
    if paras == [] then st else AddParagraphs(size, AddParagraph(size, st, paras[0]), paras[1..])
  }

  /** The final `if current_chunk.strip():` flush. */
  function Finish(st: Packer): seq<string> {
    var rest := Strip(st.buf.Text());
    if rest != "" then st.done + [rest] else st.done
  }

  /** The paragraphs the loader iterates over. */
  function Paragraphs(text: string): seq<string> {
    SplitOn(Strip(text), Blank)
  }

  /** The chunk texts, in order. */
  function ChunkContents(text: string, size: nat): seq<string> {
    if Strip(text) == "" then []
    else Finish(AddParagraphs(size, Packer([], EmptyBuffer), Paragraphs(text)))
  }

  /** The texts of a list of chunks. */
  function Contents(chunks: seq<Chunk>): (cs: seq<string>)
    ensures |cs| == |chunks|
    ensures forall k | 0 <= k < |chunks| :: cs[k] == chunks[k].content
  {
    if chunks == [] then [] else [chunks[0].content] + Contents(chunks[1..])
  }

  // ---------------------------------------------------------------------------
  // Properties of the result
  // ---------------------------------------------------------------------------

  /** A chunk text as the loader emits it: non-empty, stripped, and within the budget
      unless it is a single word (no whitespace inside) longer than the budget. */
  predicate WellFormedChunk(c: string, size: nat) {
    c != "" && Stripped(c) && (|c| <= size || NoSpace(c))
  }

  /** `x` occurs contiguously in `c` at index `i`. */
  predicate FactorAt(x: string, c: string, i: nat) {
    i + |x| <= |c| && c[i..i + |x|] == x
  }

  ghost predicate IsFactor(x: string, c: string) {
    exists i: nat :: FactorAt(x, c, i)
  }

  /** `x` occurs contiguously inside one of the texts of `cs`. */
  ghost predicate Within(x: string, cs: seq<string>) {
    exists k | 0 <= k < |cs| :: IsFactor(x, cs[k])
  }

  /** `chunk_text(text, source)` with a budget of `size` characters. */
  function ChunkText(text: string, source: string, size: nat): (chunks: seq<Chunk>)
    ensures Strip(text) == "" ==> chunks == []
    ensures forall k | 0 <= k < |chunks| :: chunks[k].metadata == map["source" := source]
    ensures forall k | 0 <= k < |chunks| :: WellFormedChunk(chunks[k].content, size)
    ensures WordsOfAll(Contents(chunks)) == Words(text)
  {
    var cs := ChunkContents(text, size);
    ChunkContentsFacts(text, size);
    var chunks := seq(|cs|, k requires 0 <= k < |cs| => Chunk(cs[k], map["source" := source]));
    assert Contents(chunks) == cs;
    chunks
  }

  /** A paragraph that fits the budget is never split: it appears whole inside one chunk. */
  lemma ShortParagraphKept(text: string, source: string, size: nat, i: nat)
    requires i < |Paragraphs(text)|
    requires Strip(Paragraphs(text)[i]) != "" && |Strip(Paragraphs(text)[i])| <= size
    ensures Within(Strip(Paragraphs(text)[i]), Contents(ChunkText(text, source, size)))
  {
    var chunks := ChunkText(text, source, size);
    var cs := ChunkContents(text, size);
    assert Contents(chunks) == cs;
    var st := AddParagraphs(size, Packer([], EmptyBuffer), Paragraphs(text));
    ParagraphsKeepShort(size, Packer([], EmptyBuffer), Paragraphs(text), i);
    AddParagraphsStep(size, Packer([], EmptyBuffer), Paragraphs(text));
    FinishIsPieces(st, size);
  }

  // ---------------------------------------------------------------------------
  // Proof: an invariant of the packer
  // ---------------------------------------------------------------------------

  predicate BufferOk(b: Buffer, size: nat) {
    || (b.body == "" && b.sep == "")
    || (WellFormedChunk(b.body, size) && (b.sep == " " || b.sep == Blank))
  }

  predicate Inv(st: Packer, size: nat) {
    && (forall k | 0 <= k < |st.done| :: WellFormedChunk(st.done[k], size))
    && BufferOk(st.buf, size)
  }

  /** What the packer holds: the emitted texts, then the open buffer's text if any. */
  function Pieces(st: Packer): seq<string> {
    st.done + (if st.buf.body != "" then [st.buf.body] else [])
  }

  predicate IsPrefix(u: string, v: string) {
    |u| <= |v| && v[..|u|] == u
  }

  /** Every text of `a` is the start of the text in the same position of `b`. */
  predicate Grows(a: seq<string>, b: seq<string>) {
    |a| <= |b| && forall k | 0 <= k < |a| :: IsPrefix(a[k], b[k])
  }

  lemma GrowsTrans(a: seq<string>, b: seq<string>, c: seq<string>)
    requires Grows(a, b) && Grows(b, c)
    ensures Grows(a, c)
  {
    forall k | 0 <= k < |a|
      ensures IsPrefix(a[k], c[k])
    {
      assert c[k][..|a[k]|] == c[k][..|b[k]|][..|a[k]|];
    }
  }

  lemma GrowsSnoc(a: seq<string>, x: string)
    ensures Grows(a, a + [x])
  {
    forall k | 0 <= k < |a|
      ensures IsPrefix(a[k], (a + [x])[k])
    {
      assert (a + [x])[k] == a[k];
    }
  }

  lemma GrowsKeepsWithin(a: seq<string>, b: seq<string>, x: string)
    requires Grows(a, b) && Within(x, a)
    ensures Within(x, b)
  {
    var k :| 0 <= k < |a| && IsFactor(x, a[k]);
    var i: nat :| FactorAt(x, a[k], i);
    assert b[k][..|a[k]|] == a[k];
    assert b[k][i..i + |x|] == a[k][i..i + |x|];
    assert FactorAt(x, b[k], i);
  }

  lemma WordsOfAllSnoc(cs: seq<string>, c: string)
    ensures WordsOfAll(cs + [c]) == WordsOfAll(cs) + Words(c)
  {
    WordsOfAllAppend(cs, [c]);
    assert WordsOfAll([c]) == Words(c) + WordsOfAll([]);
  }

  /** Under the invariant, flushing emits exactly the open buffer's body. */
  lemma FlushIsPieces(st: Packer, size: nat)
    requires Inv(st, size)
    ensures Flush(st) == Pieces(st)
  {
    if st.buf.body != "" {
      StripTrailing(st.buf.body, st.buf.sep);
    }
  }

  lemma FinishIsPieces(st: Packer, size: nat)
    requires Inv(st, size)
    ensures Finish(st) == Pieces(st)
  {
    if st.buf.body != "" {
      StripTrailing(st.buf.body, st.buf.sep);
    } else {
      assert st.buf.Text() == "";
    }
  }

  /** Joining a stripped non-empty text, whitespace and another such text keeps it stripped. */
  lemma JoinedStripped(body: string, sep: string, w: string)
    requires Stripped(body) && Stripped(w) && w != ""
    requires body == "" ==> sep == ""
    ensures Stripped(body + sep + w)
  {
    var s := body + sep + w;
    assert s[|s| - 1] == w[|w| - 1];
    if body != "" {
      assert s[0] == body[0];
    } else {
      assert s == w;
    }
  }

  lemma AddWordOverflow(size: nat, st: Packer, w: string)
    requires Inv(st, size) && w != "" && NoSpace(w)
    requires |st.buf.Text()| + |w| > size
    ensures Pieces(AddWord(size, st, w)) == Pieces(st) + [w]
    ensures Inv(AddWord(size, st, w), size)
  {
    FlushIsPieces(st, size);
  }

  lemma AddWordAppend(size: nat, st: Packer, w: string)
    requires Inv(st, size) && w != "" && NoSpace(w)
    requires |st.buf.Text()| + |w| <= size
    ensures Pieces(AddWord(size, st, w)) == st.done + [st.buf.body + st.buf.sep + w]
    ensures Inv(AddWord(size, st, w), size)
  {
    JoinedStripped(st.buf.body, st.buf.sep, w);
  }

  /** Extending the open buffer's body by whitespace and more text adds that text's words. */
  lemma ExtendWords(st: Packer, body': string, w: string)
    requires body' == st.buf.body + st.buf.sep + w
    requires AllSpace(st.buf.sep) && (st.buf.body != "" ==> st.buf.sep != "")
    ensures WordsOfAll(st.done + [body']) == WordsOfAll(Pieces(st)) + Words(w)
  {
    WordsThenText(st.buf.body, st.buf.sep, w);
    WordsOfAllSnoc(st.done, body');
    if st.buf.body != "" {
      assert Pieces(st) == st.done + [st.buf.body];
      WordsOfAllSnoc(st.done, st.buf.body);
      AppendAssoc(WordsOfAll(st.done), Words(st.buf.body), Words(w));
    } else {
      assert Pieces(st) == st.done;
    }
  }

  /** Extending the open buffer's body keeps every earlier piece as a prefix. */
  lemma ExtendGrows(st: Packer, body': string, w: string)
    requires body' == st.buf.body + st.buf.sep + w
    ensures Grows(Pieces(st), st.done + [body'])
  {
    if st.buf.body != "" {
      assert Pieces(st) == st.done + [st.buf.body];
      assert body'[..|st.buf.body|] == st.buf.body;
      assert Grows(Pieces(st), st.done + [body']);
    } else {
      assert Pieces(st) == st.done;
      GrowsSnoc(st.done, body');
    }
  }

  lemma AddWordStep(size: nat, st: Packer, w: string)
    requires Inv(st, size) && w != "" && NoSpace(w)
    ensures Inv(AddWord(size, st, w), size)
    ensures WordsOfAll(Pieces(AddWord(size, st, w))) == WordsOfAll(Pieces(st)) + [w]
    ensures Grows(Pieces(st), Pieces(AddWord(size, st, w)))
  {
    WordsOfWord(w);
    if |st.buf.Text()| + |w| > size {
      AddWordOverflow(size, st, w);
      WordsOfAllSnoc(Pieces(st), w);
      GrowsSnoc(Pieces(st), w);
    } else {
      AddWordAppend(size, st, w);
      SeparatorIsSpace(st.buf, size);
      ExtendWords(st, st.buf.body + st.buf.sep + w, w);
      ExtendGrows(st, st.buf.body + st.buf.sep + w, w);
    }
  }

  lemma {:induction false} AddWordsStep(size: nat, st: Packer, ws: seq<string>)
    requires Inv(st, size)
    requires forall k | 0 <= k < |ws| :: ws[k] != "" && NoSpace(ws[k])
    ensures Inv(AddWords(size, st, ws), size)
    ensures WordsOfAll(Pieces(AddWords(size, st, ws))) == WordsOfAll(Pieces(st)) + ws
    ensures Grows(Pieces(st), Pieces(AddWords(size, st, ws)))
    decreases |ws|
  {
    if ws == [] {
      assert Grows(Pieces(st), Pieces(st));
    } else {
      var st1 := AddWord(size, st, ws[0]);
      AddWordStep(size, st, ws[0]);
      AddWordsStep(size, st1, ws[1..]);
      GrowsTrans(Pieces(st), Pieces(st1), Pieces(AddWords(size, st, ws)));
      assert [ws[0]] + ws[1..] == ws;
      AppendAssoc(WordsOfAll(Pieces(st)), [ws[0]], ws[1..]);
    }
  }

  /** A paragraph longer than the budget goes out word by word after a flush. */
  lemma LongParagraph(size: nat, st: Packer, p: string)
    requires Inv(st, size) && p != "" && Stripped(p)
    ensures var st' := AddWords(size, Packer(Flush(st), EmptyBuffer), Words(p));
            && Inv(st', size)
            && WordsOfAll(Pieces(st')) == WordsOfAll(Pieces(st)) + Words(p)
            && Grows(Pieces(st), Pieces(st'))
  {
    FlushIsPieces(st, size);
    var st1 := Packer(Flush(st), EmptyBuffer);
    assert Pieces(st1) == Pieces(st);
    WordsShape(p);
    AddWordsStep(size, st1, Words(p));
  }

  /** A paragraph that fits the budget but not the buffer opens a new buffer. */
  lemma FlushedParagraph(size: nat, st: Packer, p: string)
    requires Inv(st, size) && p != "" && Stripped(p) && |p| <= size
    ensures var st' := Packer(Flush(st), Buffer(p, Blank));
            && Inv(st', size)
            && WordsOfAll(Pieces(st')) == WordsOfAll(Pieces(st)) + Words(p)
            && Grows(Pieces(st), Pieces(st'))
            && Within(p, Pieces(st'))
  {
    FlushedPieces(size, st, p);
    FlushedInv(size, st, p);
    WordsOfAllSnoc(Pieces(st), p);
    GrowsSnoc(Pieces(st), p);
    LastWithin(Pieces(st), p);
  }

  lemma FlushedPieces(size: nat, st: Packer, p: string)
    requires Inv(st, size) && p != ""
    ensures Pieces(Packer(Flush(st), Buffer(p, Blank))) == Pieces(st) + [p]
  {
    FlushIsPieces(st, size);
  }

  lemma FlushedInv(size: nat, st: Packer, p: string)
    requires Inv(st, size) && p != "" && Stripped(p) && |p| <= size
    ensures Inv(Packer(Flush(st), Buffer(p, Blank)), size)
  {
    FlushIsPieces(st, size);
  }

  /** A text is found inside the last piece it was appended as. */
  lemma LastWithin(cs: seq<string>, p: string)
    ensures Within(p, cs + [p])
  {
    assert FactorAt(p, p, 0);
    assert IsFactor(p, (cs + [p])[|cs|]);
  }

  /** A paragraph that fits the buffer is appended to it. */
  lemma AppendedParagraph(size: nat, st: Packer, p: string)
    requires Inv(st, size) && p != "" && Stripped(p)
    requires |st.buf.Text()| + |p| <= size
    ensures var st' := Packer(st.done, Buffer(st.buf.Text() + p, Blank));
            && Inv(st', size)
            && WordsOfAll(Pieces(st')) == WordsOfAll(Pieces(st)) + Words(p)
            && Grows(Pieces(st), Pieces(st'))
            && Within(p, Pieces(st'))
  {
    AppendedPieces(st, p);
    AppendedInv(size, st, p);
    SeparatorIsSpace(st.buf, size);
    ExtendWords(st, st.buf.Text() + p, p);
    ExtendGrows(st, st.buf.Text() + p, p);
    AppendedWithin(st.done, st.buf.Text(), p);
  }

  /** The open buffer's separator is whitespace, and present whenever the body is. */
  lemma SeparatorIsSpace(b: Buffer, size: nat)
    requires BufferOk(b, size)
    ensures AllSpace(b.sep) && (b.body != "" ==> b.sep != "")
  {
    assert IsSpace(' ') && IsSpace('\n');
  }

  lemma AppendedPieces(st: Packer, p: string)
    requires p != ""
    ensures Pieces(Packer(st.done, Buffer(st.buf.Text() + p, Blank))) == st.done + [st.buf.Text() + p]
  {
  }

  lemma AppendedInv(size: nat, st: Packer, p: string)
    requires Inv(st, size) && p != "" && Stripped(p)
    requires |st.buf.Text()| + |p| <= size
    ensures Inv(Packer(st.done, Buffer(st.buf.Text() + p, Blank)), size)
  {
    JoinedStripped(st.buf.body, st.buf.sep, p);
  }

  /** A text is found at the end of the last piece it was appended to. */
  lemma AppendedWithin(cs: seq<string>, front: string, p: string)
    ensures Within(p, cs + [front + p])
  {
    assert FactorAt(p, front + p, |front|);
    assert IsFactor(p, (cs + [front + p])[|cs|]);
  }

  lemma AddParagraphStep(size: nat, st: Packer, para: string)
    requires Inv(st, size)
    ensures Inv(AddParagraph(size, st, para), size)
    ensures WordsOfAll(Pieces(AddParagraph(size, st, para))) == WordsOfAll(Pieces(st)) + Words(para)
    ensures Grows(Pieces(st), Pieces(AddParagraph(size, st, para)))
    ensures Strip(para) != "" && |Strip(para)| <= size ==>
              Within(Strip(para), Pieces(AddParagraph(size, st, para)))
  {
    var p := Strip(para);
    WordsOfStrip(para);
    if p == "" {
      StripEmptyIff(para);
      WordsOfSpace(para);
      assert Grows(Pieces(st), Pieces(st));
    } else if |st.buf.Text()| + |p| > size {
      if |p| > size {
        LongParagraph(size, st, p);
      } else {
        FlushedParagraph(size, st, p);
      }
    } else {
      AppendedParagraph(size, st, p);
    }
  }

  lemma {:induction false} AddParagraphsStep(size: nat, st: Packer, paras: seq<string>)
    requires Inv(st, size)
    ensures Inv(AddParagraphs(size, st, paras), size)
    ensures WordsOfAll(Pieces(AddParagraphs(size, st, paras))) == WordsOfAll(Pieces(st)) + WordsOfAll(paras)
    ensures Grows(Pieces(st), Pieces(AddParagraphs(size, st, paras)))
    decreases |paras|
  {
    if paras == [] {
      assert Grows(Pieces(st), Pieces(st));
    } else {
      var st1 := AddParagraph(size, st, paras[0]);
      AddParagraphStep(size, st, paras[0]);
      AddParagraphsStep(size, st1, paras[1..]);
      GrowsTrans(Pieces(st), Pieces(st1), Pieces(AddParagraphs(size, st, paras)));
      AppendAssoc(WordsOfAll(Pieces(st)), Words(paras[0]), WordsOfAll(paras[1..]));
    }
  }

  lemma {:induction false} ParagraphsKeepShort(size: nat, st: Packer, paras: seq<string>, i: nat)
    requires Inv(st, size) && i < |paras|
    requires Strip(paras[i]) != "" && |Strip(paras[i])| <= size
    ensures Within(Strip(paras[i]), Pieces(AddParagraphs(size, st, paras)))
    decreases |paras|
  {
    var st1 := AddParagraph(size, st, paras[0]);
    AddParagraphStep(size, st, paras[0]);
    if i == 0 {
      AddParagraphsStep(size, st1, paras[1..]);
      GrowsKeepsWithin(Pieces(st1), Pieces(AddParagraphs(size, st1, paras[1..])), Strip(paras[0]));
    } else {
      ParagraphsKeepShort(size, st1, paras[1..], i - 1);
    }
  }

  /** The chunk texts are well formed and hold exactly the words of the document. */
  lemma ChunkContentsFacts(text: string, size: nat)
    ensures Strip(text) == "" ==> ChunkContents(text, size) == []
    ensures forall k | 0 <= k < |ChunkContents(text, size)| :: WellFormedChunk(ChunkContents(text, size)[k], size)
    ensures WordsOfAll(ChunkContents(text, size)) == Words(text)
  {
    if Strip(text) != "" {
      var st0 := Packer([], EmptyBuffer);
      var st := AddParagraphs(size, st0, Paragraphs(text));
      AddParagraphsStep(size, st0, Paragraphs(text));
      FinishIsPieces(st, size);
      PackedWords(text, st);
    } else {
      StripEmptyIff(text);
      WordsOfSpace(text);
    }
  }

  /** The words of the packed paragraphs are the words of the document. */
  lemma PackedWords(text: string, st: Packer)
    requires WordsOfAll(Pieces(st)) == WordsOfAll(Paragraphs(text))
    ensures WordsOfAll(Pieces(st)) == Words(text)
  {
    WordsOfStrip(text);
    JoinSplitOn(Strip(text), Blank);
    WordsOfJoin(Paragraphs(text), Blank);
  }
}

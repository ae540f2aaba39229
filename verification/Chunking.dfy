/** Splitting documents into overlapping chunks by paragraph, and long paragraphs by size. */
module Chunking {
  import opened Text

  datatype RawDocument = RawDocument(id: string, content: string, metadata: map<string, string>)

  datatype Chunk = Chunk(content: string, source: string, documentType: string, documentID: string,
                         metadata: map<string, string>)

  datatype Chunker = Chunker(size: int, overlap: int)

  /** The constructor replaces each non-positive argument by its default, one at a time. */
  function NewChunker(size: int, overlap: int): (c: Chunker)
    ensures c.size > 0 && c.overlap > 0
    ensures size > 0 ==> c.size == size
    ensures overlap > 0 ==> c.overlap == overlap
  {
    Chunker(if size <= 0 then 1000 else size, if overlap <= 0 then 200 else overlap)
  }

  /** What the constructor guarantees, and a little more: it never leaves the overlap at 0. */
  predicate Sized(c: Chunker) {
    c.size > 0 && c.overlap >= 0
  }

  /** With the overlap below the size every split completes; nothing in the code enforces it. */
  predicate Usable(c: Chunker) {
    0 <= c.overlap < c.size
  }

  /** A text of this length is split completely: one window covers it, or the windows advance. */
  predicate Completes(c: Chunker, length: nat) {
    length <= c.size || c.overlap < c.size
  }

  function Meta(doc: RawDocument, key: string): string {
    if key in doc.metadata then doc.metadata[key] else ""
  }

  function MakeChunk(content: string, doc: RawDocument): Chunk {
    Chunk(content, Meta(doc, "source"), Meta(doc, "document_type"), doc.id, doc.metadata)
  }

  function MakeChunks(contents: seq<string>, doc: RawDocument): (r: seq<Chunk>)
    ensures |r| == |contents| && forall i :: 0 <= i < |r| ==> r[i] == MakeChunk(contents[i], doc)
  {
    seq(|contents|, i requires 0 <= i < |contents| => MakeChunk(contents[i], doc))
  }

  /** Bytes of a character in UTF-8. */
  function Utf8Len(c: char): (n: nat)
    ensures 1 <= n <= 4
  {
    if c as int < 0x80 then 1 else if c as int < 0x800 then 2 else if c as int < 0x10000 then 3 else 4
  }

  function ByteLen(s: string): (n: nat)
    ensures n >= |s|
  {
    if s == "" then 0 else ByteLen(s[..|s| - 1]) + Utf8Len(s[|s| - 1])
  }

  function GetTail(c: Chunker, text: string): (tail: string)
    requires Sized(c)
    ensures |tail| <= c.overlap && |tail| <= |text| && tail == text[|text| - |tail|..]
    ensures |tail| == c.overlap || tail == text
  {
    if |text| <= c.overlap then text else text[|text| - c.overlap..]
  }

  // ---------- splitting one long paragraph ----------

  /** The windows of runes from position i on; only the first when they do not advance. */
  function Windows(c: Chunker, runes: string, i: nat): (ws: seq<string>)
    requires Sized(c)
    decreases |runes| - i
  {
    if i >= |runes| then []
    else if i + c.size >= |runes| then [runes[i..]]
    else if c.overlap >= c.size then [runes[i..i + c.size]]
    else [runes[i..i + c.size]] + Windows(c, runes, i + c.size - c.overlap)
  }

  function Drop(s: string, n: nat): string {
    if n <= |s| then s[n..] else ""
  }

  /** The windows without their first overlap runes, put together. */
  function Fresh(ws: seq<string>, overlap: nat): string
    decreases |ws|
  {
    if ws == [] then "" else Drop(ws[0], overlap) + Fresh(ws[1..], overlap)
  }

  /** The first window followed by what the others add. */
  function Unwindow(ws: seq<string>, overlap: nat): string {
    if ws == [] then "" else ws[0] + Fresh(ws[1..], overlap)
  }

  // ---------- the loop as steps, whatever the overlap ----------

  /** Before a pass of the loop, at rune i; or after its end; or after a slice out of range. */
  datatype Loop = Looping(i: int, windows: seq<string>) | Finished(windows: seq<string>) | Panicked

  /** The end of the window that starts at i. */
  function WindowEnd(c: Chunker, runes: string, i: int): int {
    if i + c.size > |runes| then |runes| else i + c.size
  }

  /** One pass, from the loop's condition to its increment. */
  function Pass(c: Chunker, runes: string, loop: Loop): Loop {
    match loop
    case Looping(i, windows) =>
      var end := WindowEnd(c, runes, i);
      if i >= |runes| then Finished(windows)
      else if !(0 <= i <= end) then Panicked
      else if end == |runes| then Finished(windows + [runes[i..end]])
      else Looping(i + (c.size - c.overlap), windows + [runes[i..end]])
    case _ => loop
  }

  function Passes(c: Chunker, runes: string, n: nat): Loop {
    if n == 0 then Looping(0, []) else Pass(c, runes, Passes(c, runes, n - 1))
  }

  /** The source's loop; None is the panic. A text on which it never ends has no result to state. */
  method SplitBySize(c: Chunker, text: string, doc: RawDocument) returns (r: Option<seq<Chunk>>)
    requires Sized(c) && (Completes(c, |text|) || c.overlap > c.size)
    ensures r == if Completes(c, |text|) then Some(MakeChunks(Windows(c, text, 0), doc)) else None
  {
    hide Windows;
    var chunks := [];
    ghost var done: seq<string> := [];
    WindowsPastEnd(c, text);
    var i := 0;
    while i < |text|
      invariant i >= 0 ==> done + Windows(c, text, i) == Windows(c, text, 0)
      invariant i != 0 ==> |text| > c.size
      invariant i < 0 ==> i == c.size - c.overlap
      invariant i > 0 ==> c.overlap < c.size
      invariant chunks == MakeChunks(done, doc)
      decreases if c.overlap < c.size then |text| - i else i + c.overlap
    {
      var end := i + c.size;
      if end > |text| {
        end := |text|;
      }
      if !(0 <= i <= end) {
        return None;
      }
      var chunk := text[i..end];
      NextWindow(c, done, text, i, end);
      chunks, done := chunks + [MakeChunk(chunk, doc)], done + [chunk];
      if end == |text| {
        break;
      }
      i := i + (c.size - c.overlap);
    }
    assert done == Windows(c, text, 0);
    assert Completes(c, |text|);
    assert chunks == MakeChunks(Windows(c, text, 0), doc);
    return Some(chunks);
  }

  lemma {:induction false} WindowsPastEnd(c: Chunker, text: string)
    requires Sized(c)
    ensures forall i: nat :: i >= |text| ==> Windows(c, text, i) == []
  {
  }

  lemma {:induction false} NextWindow(c: Chunker, done: seq<string>, text: string, i: nat, end: nat)
    requires Sized(c) && i < |text| && end == WindowEnd(c, text, i)
    ensures end == |text| ==> done + Windows(c, text, i) == done + [text[i..end]]
    ensures end < |text| && c.overlap < c.size ==>
              done + Windows(c, text, i) == (done + [text[i..end]]) + Windows(c, text, i + c.size - c.overlap)
  {
    if end == |text| {
      assert text[i..end] == text[i..];
      assert Windows(c, text, i) == [text[i..]];
    } else if c.overlap < c.size {
      var rest := Windows(c, text, i + c.size - c.overlap);
      assert Windows(c, text, i) == [text[i..end]] + rest;
      assert done + ([text[i..end]] + rest) == (done + [text[i..end]]) + rest;
    }
  }

  /** All windows but the last are full, and each begins with the last overlap runes of the one before. */
  predicate Overlapping(c: Chunker, ws: seq<string>) {
    && (forall k :: 0 <= k < |ws| ==> 1 <= |ws[k]| <= c.size)
    && (forall k :: 1 <= k < |ws| ==> Shares(c, ws[k - 1], ws[k]))
  }

  /** The last overlap runes of a full window are the first of the next, which has more. */
  predicate Shares(c: Chunker, window: string, next: string) {
    |window| == c.size && 0 <= c.overlap < |next| && c.overlap <= c.size
    && window[c.size - c.overlap..] == next[..c.overlap]
  }

  lemma {:induction false} FirstWindow(c: Chunker, runes: string, i: nat)
    requires Sized(c) && i < |runes|
    ensures var ws := Windows(c, runes, i);
            ws != [] && ws[0] == if i + c.size < |runes| then runes[i..i + c.size] else runes[i..]
  {
  }

  lemma {:induction false} WindowsOverlap(c: Chunker, runes: string, i: nat)
    requires Sized(c) && i < |runes| && Completes(c, |runes| - i)
    ensures Overlapping(c, Windows(c, runes, i))
    decreases |runes| - i
  {
    hide Windows, Overlapping, Shares;
    if i + c.size < |runes| {
      var next := i + c.size - c.overlap;
      WindowsOverlap(c, runes, next);
      FirstWindow(c, runes, next);
      WindowsStep(c, runes, i);
      SliceShares(c, runes, i);
      PrependWindow(c, runes[i..i + c.size], Windows(c, runes, next));
    } else {
      OneWindow(c, runes, i);
    }
  }

  lemma {:induction false} OneWindow(c: Chunker, runes: string, i: nat)
    requires Sized(c) && i < |runes| <= i + c.size
    ensures Overlapping(c, Windows(c, runes, i)) && Unwindow(Windows(c, runes, i), c.overlap) == runes[i..]
  {
  }

  lemma {:induction false} WindowsRebuild(c: Chunker, runes: string, i: nat)
    requires Sized(c) && i < |runes| && Completes(c, |runes| - i)
    ensures Unwindow(Windows(c, runes, i), c.overlap) == runes[i..]
    decreases |runes| - i
  {
    hide Windows, Fresh, Overlapping, Shares;
    if i + c.size < |runes| {
      var next := i + c.size - c.overlap;
      var first, rest := runes[i..i + c.size], Windows(c, runes, next);
      WindowsRebuild(c, runes, next);
      FirstWindow(c, runes, next);
      WindowsStep(c, runes, i);
      SliceShares(c, runes, i);
      FreshIsRest(rest, c.overlap, runes[next..]);
      assert ([first] + rest)[1..] == rest;
    } else {
      OneWindow(c, runes, i);
    }
  }

  /**
   * Each window of a paragraph has at most size runes, consecutive windows share exactly overlap
   * runes, and the first window followed by what each other adds is the paragraph.
   */
  lemma {:induction false} WindowsReconstruct(c: Chunker, runes: string)
    requires Sized(c) && Completes(c, |runes|) && runes != ""
    ensures Overlapping(c, Windows(c, runes, 0))
    ensures Unwindow(Windows(c, runes, 0), c.overlap) == runes
  {
    WindowsOverlap(c, runes, 0);
    WindowsRebuild(c, runes, 0);
  }

  lemma {:induction false} SliceShares(c: Chunker, runes: string, i: nat)
    requires Usable(c) && i + c.size < |runes|
    ensures var next := i + c.size - c.overlap;
            && runes[i..] == runes[i..i + c.size] + runes[next..][c.overlap..]
            && Shares(c, runes[i..i + c.size], runes[next..])
            && (next + c.size < |runes| ==> Shares(c, runes[i..i + c.size], runes[next..next + c.size]))
  {
    var next, window := i + c.size - c.overlap, runes[i..i + c.size];
    assert runes[next..][..c.overlap] == runes[next..next + c.overlap] == window[c.size - c.overlap..];
    if next + c.size < |runes| {
      assert runes[next..next + c.size][..c.overlap] == runes[next..next + c.overlap];
    }
  }

  lemma {:induction false} WindowsStep(c: Chunker, runes: string, i: nat)
    requires Usable(c) && i + c.size < |runes|
    ensures Windows(c, runes, i) == [runes[i..i + c.size]] + Windows(c, runes, i + c.size - c.overlap)
  {
  }

  lemma {:induction false} PrependWindow(c: Chunker, first: string, rest: seq<string>)
    requires Usable(c) && Overlapping(c, rest) && rest != [] && |first| == c.size
    requires Shares(c, first, rest[0])
    ensures Overlapping(c, [first] + rest)
  {
    var ws := [first] + rest;
    assert forall k :: 1 <= k < |ws| ==> ws[k] == rest[k - 1];
  }

  lemma {:induction false} FreshIsRest(ws: seq<string>, overlap: nat, text: string)
    requires ws != [] && |ws[0]| >= overlap && Unwindow(ws, overlap) == text
    ensures |text| >= overlap && Fresh(ws, overlap) == text[overlap..]
  {
  }

  // ---------- how a split ends ----------

  /** n copies of a window. */
  function Copies(window: string, n: nat): seq<string> {
    if n == 0 then [] else Copies(window, n - 1) + [window]
  }

  /** A loop that has ended stays so. */
  lemma {:induction false} EndIsFinal(c: Chunker, runes: string, m: nat, n: nat)
    requires m <= n && !Passes(c, runes, m).Looping?
    ensures Passes(c, runes, n) == Passes(c, runes, m)
  {
    if m < n {
      EndIsFinal(c, runes, m, n - 1);
    }
  }

  /** From position i on a split that completes reaches its end, with the windows from there added. */
  lemma {:induction false} ReachesEnd(c: Chunker, runes: string, n: nat, i: nat, windows: seq<string>) returns (m: nat)
    requires Sized(c) && Passes(c, runes, n) == Looping(i, windows)
    requires i <= |runes| && Completes(c, |runes| - i)
    ensures Passes(c, runes, m) == Finished(windows + Windows(c, runes, i))
    decreases |runes| - i
  {
    hide Windows, Passes;
    PassOf(c, runes, n);
    WindowsPastEnd(c, runes);
    m := n + 1;
    if i < |runes| {
      var end := WindowEnd(c, runes, i);
      NextWindow(c, windows, runes, i, end);
      if end < |runes| {
        m := ReachesEnd(c, runes, n + 1, i + (c.size - c.overlap), windows + [runes[i..end]]);
      }
    }
  }

  lemma {:induction false} PassOf(c: Chunker, runes: string, n: nat)
    ensures Passes(c, runes, 0) == Looping(0, [])
    ensures Passes(c, runes, n + 1) == Pass(c, runes, Passes(c, runes, n))
  {
  }

  /** The split comes to its end. */
  ghost predicate Ends(c: Chunker, runes: string) {
    exists n: nat :: Passes(c, runes, n).Finished?
  }

  /** The split slices out of range. */
  ghost predicate Panics(c: Chunker, runes: string) {
    exists n: nat :: Passes(c, runes, n).Panicked?
  }

  /** The split goes on for ever. */
  ghost predicate Endless(c: Chunker, runes: string) {
    forall n: nat :: Passes(c, runes, n).Looping?
  }

  lemma {:induction false} SplitCompletes(c: Chunker, runes: string)
    requires Sized(c) && Completes(c, |runes|)
    ensures Ends(c, runes) && !Panics(c, runes)
    ensures forall n: nat :: Passes(c, runes, n).Finished? ==> Passes(c, runes, n).windows == Windows(c, runes, 0)
  {
    hide Windows, Passes;
    PassOf(c, runes, 0);
    var m := ReachesEnd(c, runes, 0, 0, []);
    assert [] + Windows(c, runes, 0) == Windows(c, runes, 0);
    forall n: nat ensures Passes(c, runes, n).Looping? || Passes(c, runes, n) == Finished(Windows(c, runes, 0)) {
      if !Passes(c, runes, n).Looping? {
        if n <= m {
          EndIsFinal(c, runes, n, m);
        } else {
          EndIsFinal(c, runes, m, n);
        }
      }
    }
  }

  /** With the overlap above the size the second window starts before the text. */
  lemma {:induction false} SecondWindowPanics(c: Chunker, runes: string, n: nat)
    requires 0 < c.size < |runes| && c.overlap > c.size
    ensures Passes(c, runes, n)
         == if n == 0 then Looping(0, [])
            else if n == 1 then Looping(c.size - c.overlap, [runes[..c.size]]) else Panicked
  {
    PassOf(c, runes, 0);
    PassOf(c, runes, 1);
    if n > 2 {
      EndIsFinal(c, runes, 2, n);
    }
  }

  /** With the overlap equal to the size every pass cuts the first window again. */
  lemma {:induction false} FirstWindowRepeats(c: Chunker, runes: string, n: nat)
    requires 0 < c.size < |runes| && c.overlap == c.size
    ensures Passes(c, runes, n) == Looping(0, Copies(runes[..c.size], n))
  {
    if n > 0 {
      FirstWindowRepeats(c, runes, n - 1);
    }
  }

  /**
   * How the split of a text ends. It completes, with exactly the specified windows, if and only if
   * one window covers the text or the overlap is below the size; it panics, at the second window, if
   * and only if the text is longer and the overlap is above the size; and it cuts the first window
   * for ever if and only if the text is longer and the overlap is the size.
   */
  lemma {:induction false} SplitEndsIff(c: Chunker, runes: string)
    requires Sized(c)
    ensures Ends(c, runes) <==> |runes| <= c.size || c.overlap < c.size
    ensures forall n: nat :: Passes(c, runes, n).Finished? ==> Passes(c, runes, n).windows == Windows(c, runes, 0)
    ensures Panics(c, runes) <==> |runes| > c.size && c.overlap > c.size
    ensures Panics(c, runes) ==> Passes(c, runes, 1).Looping? && Passes(c, runes, 2).Panicked?
    ensures Endless(c, runes) <==> |runes| > c.size && c.overlap == c.size
    ensures Endless(c, runes) ==> forall n: nat :: Passes(c, runes, n) == Looping(0, Copies(runes[..c.size], n))
  {
    hide Windows, Passes, Copies;
    if Completes(c, |runes|) {
      SplitCompletes(c, runes);
    } else if c.overlap > c.size {
      forall n: nat
        ensures Passes(c, runes, n)
             == if n == 0 then Looping(0, [])
                else if n == 1 then Looping(c.size - c.overlap, [runes[..c.size]]) else Panicked
      {
        SecondWindowPanics(c, runes, n);
      }
      assert Passes(c, runes, 2).Panicked?;
    } else {
      forall n: nat ensures Passes(c, runes, n) == Looping(0, Copies(runes[..c.size], n)) {
        FirstWindowRepeats(c, runes, n);
      }
      assert Passes(c, runes, 0).Looping?;
    }
  }

  /**
   * The constructor produces both failures: size 100 with the default overlap of 200 panics on every
   * text of more than 100 runes, and size 200 with it never finishes one of more than 200.
   */
  lemma {:induction false} ConstructorAllowsUnusable(runes: string)
    ensures NewChunker(0, 0) == Chunker(1000, 200) && Usable(NewChunker(0, 0))
    ensures |runes| > 100 ==> Passes(NewChunker(100, 0), runes, 2) == Panicked
    ensures |runes| > 200 ==> Endless(NewChunker(200, 0), runes)
  {
    SplitEndsIff(NewChunker(100, 0), runes);
    SplitEndsIff(NewChunker(200, 0), runes);
  }

  // ---------- a whole document ----------

  /** A buffer of whole paragraphs behind the tail carried from the chunk before, or one long paragraph. */
  datatype Piece = Buffer(tail: string, paras: seq<string>) | Cut(para: string)

  /** The pieces finished so far, and the buffer being filled. */
  datatype Plan = Plan(pieces: seq<Piece>, tail: string, paras: seq<string>)

  /** The buffer's text: tail and paragraphs separated by blank lines. */
  function Render(tail: string, paras: seq<string>): string
    decreases |paras|
  {
    if paras == [] then tail
    else
      var text := Render(tail, paras[..|paras| - 1]);
      (if text != "" then text + "\n\n" else "") + paras[|paras| - 1]
  }

  function Finish(plan: Plan): seq<Piece> {
    if Render(plan.tail, plan.paras) == "" then plan.pieces else plan.pieces + [Buffer(plan.tail, plan.paras)]
  }

  /** Flush the buffer if the paragraph would overfill it, keeping its tail. */
  function Flush(c: Chunker, plan: Plan, para: string): Plan
    requires Sized(c)
  {
    var text := Render(plan.tail, plan.paras);
    if ByteLen(text) + |para| + 2 > c.size && text != "" then
      Plan(plan.pieces + [Buffer(plan.tail, plan.paras)], GetTail(c, text), [])
    else plan
  }

  function AddParagraph(c: Chunker, plan: Plan, para: string): Plan
    requires Sized(c)
  {
    var p := Flush(c, plan, para);
    if |para| > c.size then Plan(Finish(p) + [Cut(para)], "", [])
    else p.(paras := p.paras + [para])
  }

  function PlanOf(c: Chunker, paras: seq<string>): Plan
    requires Sized(c)
    decreases |paras|
  {
    if paras == [] then Plan([], "", [])
    else AddParagraph(c, PlanOf(c, paras[..|paras| - 1]), paras[|paras| - 1])
  }

  /** The non-blank trimmed paragraphs of a document. */
  function ParagraphsOf(doc: RawDocument): seq<string> {
    NonBlank(Split(Trim(doc.content), "\n\n"))
  }

  function PiecesOf(c: Chunker, doc: RawDocument): seq<Piece>
    requires Sized(c)
  {
    Finish(PlanOf(c, ParagraphsOf(doc)))
  }

  function PieceContents(c: Chunker, piece: Piece): seq<string>
    requires Sized(c)
  {
    match piece
    case Buffer(tail, paras) => [Render(tail, paras)]
    case Cut(para) => Windows(c, para, 0)
  }

  function Contents(c: Chunker, pieces: seq<Piece>): seq<string>
    requires Sized(c)
    decreases |pieces|
  {
    if pieces == [] then [] else Contents(c, pieces[..|pieces| - 1]) + PieceContents(c, pieces[|pieces| - 1])
  }

  function ChunkDocumentSpec(c: Chunker, doc: RawDocument): seq<Chunk>
    requires Sized(c)
  {
    MakeChunks(Contents(c, PiecesOf(c, doc)), doc)
  }

  lemma {:induction false} ContentsAppend(c: Chunker, pieces: seq<Piece>, piece: Piece)
    requires Sized(c)
    ensures Contents(c, pieces + [piece]) == Contents(c, pieces) + PieceContents(c, piece)
  {
    assert (pieces + [piece])[..|pieces|] == pieces;
  }

  lemma {:induction false} MakeChunksConcat(a: seq<string>, b: seq<string>, doc: RawDocument)
    ensures MakeChunks(a + b, doc) == MakeChunks(a, doc) + MakeChunks(b, doc)
  {
  }

  lemma {:induction false} NextParagraph(c: Chunker, parts: seq<string>, i: nat)
    requires Sized(c) && i < |parts|
    ensures PlanOf(c, NonBlank(parts[..i + 1]))
         == var para := Trim(parts[i]);
            if para == "" then PlanOf(c, NonBlank(parts[..i]))
            else AddParagraph(c, PlanOf(c, NonBlank(parts[..i])), para)
  {
    hide Trim, AddParagraph;
    assert parts[..i + 1][..i] == parts[..i];
    var before, para := NonBlank(parts[..i]), Trim(parts[i]);
    assert (before + [para])[..|before|] == before;
  }

  lemma {:induction false} RenderAppend(tail: string, paras: seq<string>, para: string)
    ensures Render(tail, paras + [para])
         == (if Render(tail, paras) != "" then Render(tail, paras) + "\n\n" else "") + para
  {
    assert (paras + [para])[..|paras|] == paras;
  }

  /** Every paragraph of the document is split completely; each is, if none is longer than the size. */
  ghost predicate DocumentCompletes(c: Chunker, doc: RawDocument) {
    AllComplete(c, ParagraphsOf(doc))
  }

  predicate AllComplete(c: Chunker, paras: seq<string>) {
    forall k :: 0 <= k < |paras| ==> Completes(c, |paras[k]|)
  }

  /** The buffer loop; None is a panic in the split of a paragraph. */
  method ChunkDocument(c: Chunker, doc: RawDocument) returns (r: Option<seq<Chunk>>)
    requires Sized(c) && (DocumentCompletes(c, doc) || c.overlap > c.size)
    ensures r.Some? <==> DocumentCompletes(c, doc)
    ensures r.Some? ==> r.value == ChunkDocumentSpec(c, doc)
  {
    hide Render, Contents, ByteLen, Windows, Split, Trim, NonBlank;
    var text := Trim(doc.content);
    if text == "" {
      BlankDocument(c, doc);
      return Some([]);
    }
    var chunks: seq<Chunk> := [];
    var paragraphs := Split(text, "\n\n");
    var current := "";
    ghost var plan := Plan([], "", []);
    NothingPlanned(c, doc);
    var i := 0;
    while i < |paragraphs|
      invariant 0 <= i <= |paragraphs|
      invariant plan == PlanOf(c, NonBlank(paragraphs[..i]))
      invariant current == Render(plan.tail, plan.paras)
      invariant chunks == MakeChunks(Contents(c, plan.pieces), doc)
      invariant AllComplete(c, NonBlank(paragraphs[..i]))
    {
      var para := Trim(paragraphs[i]);
      NextParagraph(c, paragraphs, i);
      ParagraphIsOne(c, paragraphs, i);
      i := i + 1;
      if para == "" {
        continue;
      }
      ghost var flushed := Flush(c, plan, para);
      if ByteLen(current) + |para| + 2 > c.size && |current| > 0 {
        FlushChunk(c, plan.pieces, Buffer(plan.tail, plan.paras), doc);
        chunks := chunks + [MakeChunk(current, doc)];
        current := GetTail(c, current);
        RenderTail(current);
      }
      if |para| > c.size {
        if |current| > 0 {
          FlushChunk(c, flushed.pieces, Buffer(flushed.tail, flushed.paras), doc);
          chunks := chunks + [MakeChunk(current, doc)];
          current := "";
        }
        var sub := SplitBySize(c, para, doc);
        if sub.None? {
          return None;
        }
        FlushChunk(c, Finish(flushed), Cut(para), doc);
        chunks := chunks + sub.value;
        RenderTail("");
        plan := AddParagraph(c, plan, para);
        continue;
      }
      RenderAppend(flushed.tail, flushed.paras, para);
      if |current| > 0 {
        current := current + "\n\n";
      }
      current := current + para;
      plan := AddParagraph(c, plan, para);
    }
    assert paragraphs[..i] == paragraphs;
    if |current| > 0 {
      FlushChunk(c, plan.pieces, Buffer(plan.tail, plan.paras), doc);
      chunks := chunks + [MakeChunk(current, doc)];
    }
    return Some(chunks);
  }

  /** The paragraph at i is one of the document's, so it must be split completely if they all are. */
  lemma {:induction false} ParagraphIsOne(c: Chunker, parts: seq<string>, i: nat)
    requires i < |parts|
    ensures AllComplete(c, NonBlank(parts)) && Trim(parts[i]) != "" ==> Completes(c, |Trim(parts[i])|)
    ensures AllComplete(c, NonBlank(parts[..i])) && (Trim(parts[i]) != "" ==> Completes(c, |Trim(parts[i])|))
       ==> AllComplete(c, NonBlank(parts[..i + 1]))
  {
    hide Trim;
    assert parts[..i + 1][..i] == parts[..i];
    NonBlankGrows(parts, i + 1);
    var para, upto := Trim(parts[i]), NonBlank(parts[..i + 1]);
    if para != "" {
      assert upto[|upto| - 1] == para;
    }
  }

  lemma {:induction false} NonBlankGrows(parts: seq<string>, i: nat)
    requires i <= |parts|
    ensures NonBlank(parts[..i]) <= NonBlank(parts)
    decreases |parts|
  {
    hide Trim;
    if i < |parts| {
      var init := parts[..|parts| - 1];
      NonBlankGrows(init, i);
      assert init[..i] == parts[..i];
    } else {
      assert parts[..i] == parts;
    }
  }

  lemma {:induction false} FlushChunk(c: Chunker, pieces: seq<Piece>, piece: Piece, doc: RawDocument)
    requires Sized(c)
    ensures MakeChunks(Contents(c, pieces + [piece]), doc)
         == MakeChunks(Contents(c, pieces), doc) + MakeChunks(PieceContents(c, piece), doc)
    ensures piece.Buffer? ==>
              MakeChunks(PieceContents(c, piece), doc) == [MakeChunk(Render(piece.tail, piece.paras), doc)]
  {
    hide Render, Contents, Windows;
    ContentsAppend(c, pieces, piece);
    MakeChunksConcat(Contents(c, pieces), PieceContents(c, piece), doc);
  }

  lemma {:induction false} RenderTail(tail: string)
    ensures Render(tail, []) == tail
  {
  }

  lemma {:induction false} BlankDocument(c: Chunker, doc: RawDocument)
    requires Sized(c) && Trim(doc.content) == ""
    ensures DocumentCompletes(c, doc)
    ensures ChunkDocumentSpec(c, doc) == []
  {
    var parts := Split("", "\n\n");
    assert parts == [""];
    assert parts[..0] == [] && Trim("") == "";
    assert NonBlank(parts) == [];
  }

  lemma {:induction false} NothingPlanned(c: Chunker, doc: RawDocument)
    requires Sized(c)
    ensures PlanOf(c, NonBlank([])) == Plan([], "", [])
    ensures Render("", []) == "" && MakeChunks(Contents(c, []), doc) == []
  {
  }

  function ChunkSpec(c: Chunker, docs: seq<RawDocument>): seq<Chunk>
    requires Sized(c)
    decreases |docs|
  {
    if docs == [] then [] else ChunkSpec(c, docs[..|docs| - 1]) + ChunkDocumentSpec(c, docs[|docs| - 1])
  }

  lemma {:induction false} UsableCompletes(c: Chunker, docs: seq<RawDocument>)
    requires Usable(c)
    ensures forall k :: 0 <= k < |docs| ==> DocumentCompletes(c, docs[k])
  {
    hide ParagraphsOf;
  }

  /** The documents one after another; None is a panic in one of them. */
  method ChunkAll(c: Chunker, docs: seq<RawDocument>) returns (r: Option<seq<Chunk>>)
    requires Sized(c) && ((forall k :: 0 <= k < |docs| ==> DocumentCompletes(c, docs[k])) || c.overlap > c.size)
    ensures r.Some? <==> forall k :: 0 <= k < |docs| ==> DocumentCompletes(c, docs[k])
    ensures r.Some? ==> r.value == ChunkSpec(c, docs)
  {
    hide ChunkDocumentSpec, DocumentCompletes;
    var chunks: seq<Chunk> := [];
    var i := 0;
    while i < |docs|
      invariant 0 <= i <= |docs|
      invariant chunks == ChunkSpec(c, docs[..i])
      invariant forall k :: 0 <= k < i ==> DocumentCompletes(c, docs[k])
    {
      var docChunks := ChunkDocument(c, docs[i]);
      if docChunks.None? {
        return None;
      }
      assert docs[..i + 1][..i] == docs[..i];
      chunks := chunks + docChunks.value;
      i := i + 1;
    }
    assert docs[..i] == docs;
    return Some(chunks);
  }

  // ---------- what the chunks of a document hold ----------

  /** The paragraphs a piece holds besides its carried tail. */
  function Body(piece: Piece): seq<string> {
    match piece
    case Buffer(_, paras) => paras
    case Cut(para) => [para]
  }

  function Bodies(pieces: seq<Piece>): seq<string>
    decreases |pieces|
  {
    if pieces == [] then [] else Bodies(pieces[..|pieces| - 1]) + Body(pieces[|pieces| - 1])
  }

  /** A carried tail is the end of the chunk right before. */
  predicate TailFrom(c: Chunker, pieces: seq<Piece>, tail: string)
    requires Sized(c)
  {
    tail != "" ==>
      && pieces != [] && pieces[|pieces| - 1].Buffer?
      && tail == GetTail(c, Render(pieces[|pieces| - 1].tail, pieces[|pieces| - 1].paras))
  }

  predicate Limited(c: Chunker, tail: string, paras: seq<string>) {
    |Render(tail, paras)| <= c.size + c.overlap + 2
  }

  predicate PieceFits(c: Chunker, before: seq<Piece>, piece: Piece)
    requires Sized(c)
  {
    match piece
    case Buffer(tail, paras) => Limited(c, tail, paras) && TailFrom(c, before, tail)
    case Cut(para) => |para| > c.size
  }

  predicate AllFit(c: Chunker, pieces: seq<Piece>)
    requires Sized(c)
    decreases |pieces|
  {
    pieces != [] ==>
      AllFit(c, pieces[..|pieces| - 1]) && PieceFits(c, pieces[..|pieces| - 1], pieces[|pieces| - 1])
  }

  /** What holds of a plan after the given paragraphs. */
  ghost predicate PlanFits(c: Chunker, plan: Plan, paras: seq<string>)
    requires Sized(c)
  {
    && Bodies(plan.pieces) + plan.paras == paras
    && AllFit(c, plan.pieces)
    && TailFrom(c, plan.pieces, plan.tail)
    && |plan.tail| <= c.overlap
    && Limited(c, plan.tail, plan.paras)
    && (forall i :: 0 <= i < |plan.paras| ==> plan.paras[i] != "")
  }

  lemma {:induction false} AppendPiece(c: Chunker, pieces: seq<Piece>, piece: Piece)
    requires Sized(c) && AllFit(c, pieces) && PieceFits(c, pieces, piece)
    ensures AllFit(c, pieces + [piece]) && Bodies(pieces + [piece]) == Bodies(pieces) + Body(piece)
  {
    assert (pieces + [piece])[..|pieces|] == pieces;
  }

  lemma {:induction false} EmptyRenderHoldsNothing(tail: string, paras: seq<string>)
    requires Render(tail, paras) == "" && forall i :: 0 <= i < |paras| ==> paras[i] != ""
    ensures paras == [] && tail == ""
  {
  }

  lemma {:induction false} FinishFits(c: Chunker, plan: Plan, paras: seq<string>)
    requires Sized(c) && PlanFits(c, plan, paras)
    ensures AllFit(c, Finish(plan)) && Bodies(Finish(plan)) == paras
  {
    hide Render, Bodies, AllFit, TailFrom;
    if Render(plan.tail, plan.paras) == "" {
      EmptyRenderHoldsNothing(plan.tail, plan.paras);
    } else {
      AppendPiece(c, plan.pieces, Buffer(plan.tail, plan.paras));
    }
  }

  lemma {:induction false} FlushedFits(c: Chunker, plan: Plan, paras: seq<string>)
    requires Sized(c) && PlanFits(c, plan, paras)
    ensures var text := Render(plan.tail, plan.paras);
            PlanFits(c, Plan(plan.pieces + [Buffer(plan.tail, plan.paras)], GetTail(c, text), []), paras)
  {
    hide Bodies, AllFit, Render;
    var text, piece := Render(plan.tail, plan.paras), Buffer(plan.tail, plan.paras);
    AppendPiece(c, plan.pieces, piece);
    RenderTail(GetTail(c, text));
    assert (plan.pieces + [piece])[|plan.pieces|] == piece;
    assert Bodies(plan.pieces + [piece]) + [] == paras;
  }

  lemma {:induction false} FlushFits(c: Chunker, plan: Plan, paras: seq<string>, para: string)
    requires Sized(c) && PlanFits(c, plan, paras)
    ensures PlanFits(c, Flush(c, plan, para), paras)
    ensures var p := Flush(c, plan, para);
            var text := Render(p.tail, p.paras);
            text != "" ==> |text| <= c.overlap || |text| + |para| + 2 <= c.size
  {
    hide PlanFits, Render, ByteLen;
    var text := Render(plan.tail, plan.paras);
    if ByteLen(text) + |para| + 2 > c.size && text != "" {
      FlushedFits(c, plan, paras);
      RenderTail(GetTail(c, text));
    }
  }

  /** A paragraph that fits joins the buffer. */
  lemma {:induction false} JoinFits(c: Chunker, p: Plan, paras: seq<string>, para: string)
    requires Sized(c) && PlanFits(c, p, paras) && para != "" && |para| <= c.size
    requires var text := Render(p.tail, p.paras);
             text != "" ==> |text| <= c.overlap || |text| + |para| + 2 <= c.size
    ensures PlanFits(c, p.(paras := p.paras + [para]), paras + [para])
  {
    hide Bodies, AllFit, Render, TailFrom;
    RenderAppend(p.tail, p.paras, para);
    assert Bodies(p.pieces) + (p.paras + [para]) == paras + [para];
  }

  /** A paragraph over the size follows the finished buffer on its own. */
  lemma {:induction false} CutFits(c: Chunker, p: Plan, paras: seq<string>, para: string)
    requires Sized(c) && PlanFits(c, p, paras) && |para| > c.size
    ensures PlanFits(c, Plan(Finish(p) + [Cut(para)], "", []), paras + [para])
  {
    FinishFits(c, p, paras);
    hide Bodies, AllFit, Render, Finish;
    AppendPiece(c, Finish(p), Cut(para));
    RenderTail("");
    assert Bodies(Finish(p) + [Cut(para)]) + [] == paras + [para];
  }

  lemma {:induction false} AddParagraphFits(c: Chunker, plan: Plan, paras: seq<string>, para: string)
    requires Sized(c) && PlanFits(c, plan, paras) && para != ""
    ensures PlanFits(c, AddParagraph(c, plan, para), paras + [para])
  {
    hide PlanFits, Render, Flush, Finish;
    FlushFits(c, plan, paras, para);
    var p := Flush(c, plan, para);
    if |para| > c.size {
      CutFits(c, p, paras, para);
    } else {
      JoinFits(c, p, paras, para);
    }
  }

  lemma {:induction false} PlanOfFits(c: Chunker, paras: seq<string>)
    requires Sized(c) && forall i :: 0 <= i < |paras| ==> paras[i] != ""
    ensures PlanFits(c, PlanOf(c, paras), paras)
    decreases |paras|
  {
    hide PlanFits, AddParagraph;
    if paras == [] {
      EmptyPlanFits(c);
    } else {
      var init := paras[..|paras| - 1];
      assert forall i :: 0 <= i < |init| ==> init[i] == paras[i];
      PlanOfFits(c, init);
      AddParagraphFits(c, PlanOf(c, init), init, paras[|paras| - 1]);
      assert paras == init + [paras[|paras| - 1]];
    }
  }

  lemma {:induction false} EmptyPlanFits(c: Chunker)
    requires Sized(c)
    ensures PlanFits(c, Plan([], "", []), [])
  {
    RenderTail("");
  }

  lemma {:induction false} NonBlankAreNonEmpty(parts: seq<string>)
    ensures forall i :: 0 <= i < |NonBlank(parts)| ==> NonBlank(parts)[i] != ""
    decreases |parts|
  {
    if parts != [] {
      NonBlankAreNonEmpty(parts[..|parts| - 1]);
    }
  }

  /**
   * Nothing is lost, reordered or invented: setting the carried tails aside, the chunks in order hold
   * exactly the trimmed non-blank paragraphs, and every carried tail is the end of the chunk before.
   */
  lemma {:induction false} ChunksHoldTheParagraphs(c: Chunker, doc: RawDocument)
    requires Sized(c)
    ensures Bodies(PiecesOf(c, doc)) == ParagraphsOf(doc)
    ensures AllFit(c, PiecesOf(c, doc))
  {
    hide PlanFits, AllFit, Bodies, PlanOf, Finish;
    NonBlankAreNonEmpty(Split(Trim(doc.content), "\n\n"));
    PlanOfFits(c, ParagraphsOf(doc));
    FinishFits(c, PlanOf(c, ParagraphsOf(doc)), ParagraphsOf(doc));
  }

  lemma {:induction false} ContentsAreBounded(c: Chunker, pieces: seq<Piece>)
    requires Sized(c) && AllFit(c, pieces)
    ensures forall i :: 0 <= i < |Contents(c, pieces)| ==> |Contents(c, pieces)[i]| <= c.size + c.overlap + 2
    decreases |pieces|
  {
    hide Render, TailFrom;
    if pieces != [] {
      ContentsAreBounded(c, pieces[..|pieces| - 1]);
      var last := pieces[|pieces| - 1];
      if last.Cut? {
        if Completes(c, |last.para|) {
          WindowsReconstruct(c, last.para);
        } else {
          assert Windows(c, last.para, 0) == [last.para[..c.size]];
        }
      }
    }
  }

  /** No chunk has more than size + overlap + 2 runes. */
  lemma {:induction false} ChunksAreBounded(c: Chunker, doc: RawDocument)
    requires Sized(c)
    ensures forall i :: 0 <= i < |ChunkDocumentSpec(c, doc)| ==>
              |ChunkDocumentSpec(c, doc)[i].content| <= c.size + c.overlap + 2
  {
    hide *;
    ChunksHoldTheParagraphs(c, doc);
    ContentsAreBounded(c, PiecesOf(c, doc));
    ChunkContents(c, doc);
  }

  ghost predicate Contains(text: string, part: string) {
    exists i :: At(text, part, i)
  }

  lemma {:induction false} RenderContains(tail: string, paras: seq<string>, k: nat)
    requires k < |paras|
    ensures Contains(Render(tail, paras), paras[k])
    decreases |paras|
  {
    var init, last := paras[..|paras| - 1], paras[|paras| - 1];
    var before, text := Render(tail, init), Render(tail, paras);
    var lead := if before != "" then before + "\n\n" else "";
    assert text == lead + last;
    if k == |init| {
      assert At(text, last, |lead|);
    } else {
      RenderContains(tail, init, k);
      var i :| At(before, paras[k], i);
      assert before != "" ==> text[i..i + |paras[k]|] == before[i..i + |paras[k]|];
      assert before == "" ==> paras[k] == text[0..0];
      assert At(text, paras[k], i);
    }
  }

  lemma {:induction false} SmallBodiesAreWhole(c: Chunker, pieces: seq<Piece>, para: string)
    requires Sized(c) && AllFit(c, pieces) && para in Bodies(pieces) && |para| <= c.size
    ensures exists k :: 0 <= k < |Contents(c, pieces)| && Contains(Contents(c, pieces)[k], para)
    decreases |pieces|
  {
    hide Render, Windows, TailFrom, Contains;
    var init, last := pieces[..|pieces| - 1], pieces[|pieces| - 1];
    var all := Contents(c, pieces);
    if para in Bodies(init) {
      SmallBodiesAreWhole(c, init, para);
      var k :| 0 <= k < |Contents(c, init)| && Contains(Contents(c, init)[k], para);
      assert all[k] == Contents(c, init)[k];
    } else {
      assert para in Body(last);
      var i :| 0 <= i < |Body(last)| && Body(last)[i] == para;
      RenderContains(last.tail, last.paras, i);
      assert all[|all| - 1] == Render(last.tail, last.paras);
    }
  }

  /** Every paragraph of at most size runes lies whole in some chunk. */
  lemma {:induction false} SmallParagraphsAreWhole(c: Chunker, doc: RawDocument, para: string)
    requires Sized(c) && para in ParagraphsOf(doc) && |para| <= c.size
    ensures exists k :: 0 <= k < |ChunkDocumentSpec(c, doc)| && Contains(ChunkDocumentSpec(c, doc)[k].content, para)
  {
    hide *;
    ChunksHoldTheParagraphs(c, doc);
    SmallBodiesAreWhole(c, PiecesOf(c, doc), para);
    var k :| 0 <= k < |Contents(c, PiecesOf(c, doc))| && Contains(Contents(c, PiecesOf(c, doc))[k], para);
    ChunkContents(c, doc);
  }

  lemma {:induction false} ChunkContents(c: Chunker, doc: RawDocument)
    requires Sized(c)
    ensures var chunks, contents := ChunkDocumentSpec(c, doc), Contents(c, PiecesOf(c, doc));
            |chunks| == |contents| && forall k :: 0 <= k < |chunks| ==> chunks[k].content == contents[k]
  {
    hide Contents, PiecesOf;
  }

  // ---------- what a document's chunks carry, and when they close ----------

  function Min(a: int, b: int): int {
    if a <= b then a else b
  }

  /** The last overlap runes of a text, or all of it. */
  function Suffix(c: Chunker, text: string): (r: string)
    requires Sized(c)
    ensures |r| == Min(c.overlap, |text|)
  {
    text[|text| - Min(c.overlap, |text|)..]
  }

  function TextOf(piece: Piece): string
    requires piece.Buffer?
  {
    Render(piece.tail, piece.paras)
  }

  /** What the buffer after these pieces begins with: the end of a buffer right before, and nothing otherwise. */
  function Carried(c: Chunker, pieces: seq<Piece>): string
    requires Sized(c)
  {
    if pieces != [] && pieces[|pieces| - 1].Buffer? then Suffix(c, TextOf(pieces[|pieces| - 1])) else ""
  }

  /** Every paragraph of a buffer but the first joined it because there was room. */
  predicate HadRoom(c: Chunker, tail: string, paras: seq<string>) {
    && (forall j :: 0 <= j < |paras| ==> |paras[j]| <= c.size)
    && forall j :: 1 <= j < |paras| ==> ByteLen(Render(tail, paras[..j])) + |paras[j]| + 2 <= c.size
  }

  predicate Carries(c: Chunker, before: seq<Piece>, piece: Piece)
    requires Sized(c)
  {
    piece.Buffer? ==> piece.tail == Carried(c, before) && HadRoom(c, piece.tail, piece.paras)
  }

  /** Every buffer begins with what it carries and was filled while there was room. */
  predicate AllCarry(c: Chunker, pieces: seq<Piece>)
    requires Sized(c)
    decreases |pieces|
  {
    pieces != [] ==>
      AllCarry(c, pieces[..|pieces| - 1]) && Carries(c, pieces[..|pieces| - 1], pieces[|pieces| - 1])
  }

  /** A buffer is closed before a paragraph only if that would overfill it. */
  predicate Closed(c: Chunker, piece: Piece, next: seq<string>) {
    piece.Buffer? && next != [] ==> ByteLen(TextOf(piece)) + |next[0]| + 2 > c.size
  }

  /** So for all pieces, where `next` are the paragraphs after them. */
  predicate AllClosed(c: Chunker, pieces: seq<Piece>, next: seq<string>)
    decreases |pieces|
  {
    pieces != [] ==>
      var last := pieces[|pieces| - 1];
      Closed(c, last, next) && AllClosed(c, pieces[..|pieces| - 1], Body(last) + next)
  }

  /** What holds of a plan between two paragraphs. */
  ghost predicate PlanCarries(c: Chunker, plan: Plan)
    requires Sized(c)
  {
    && AllCarry(c, plan.pieces) && AllClosed(c, plan.pieces, plan.paras)
    && plan.tail == Carried(c, plan.pieces) && HadRoom(c, plan.tail, plan.paras)
    && (plan.paras == [] ==> plan.tail == "" && (plan.pieces == [] || plan.pieces[|plan.pieces| - 1].Cut?))
    && (forall i :: 0 <= i < |plan.paras| ==> plan.paras[i] != "")
  }

  lemma {:induction false} CarryAppend(c: Chunker, pieces: seq<Piece>, piece: Piece, next: seq<string>)
    requires Sized(c)
    ensures AllCarry(c, pieces + [piece]) <==> AllCarry(c, pieces) && Carries(c, pieces, piece)
    ensures AllClosed(c, pieces + [piece], next) <==> Closed(c, piece, next) && AllClosed(c, pieces, Body(piece) + next)
    ensures Carried(c, pieces + [piece]) == if piece.Buffer? then Suffix(c, TextOf(piece)) else ""
  {
    assert (pieces + [piece])[..|pieces|] == pieces;
  }

  /** Only the first paragraph after matters. */
  lemma {:induction false} ClosedByFirst(c: Chunker, pieces: seq<Piece>, next: seq<string>, more: seq<string>)
    requires AllClosed(c, pieces, next) && next != []
    ensures AllClosed(c, pieces, next + more)
    decreases |pieces|
  {
    if pieces != [] {
      var last := pieces[|pieces| - 1];
      assert (next + more)[0] == next[0];
      assert Body(last) + (next + more) == (Body(last) + next) + more;
      ClosedByFirst(c, pieces[..|pieces| - 1], Body(last) + next, more);
    }
  }

  /** A paragraph after pieces of which the last is no buffer. */
  lemma {:induction false} ClosedAfterCut(c: Chunker, pieces: seq<Piece>, next: seq<string>)
    requires AllClosed(c, pieces, []) && (pieces == [] || pieces[|pieces| - 1].Cut?)
    ensures AllClosed(c, pieces, next)
  {
    if pieces != [] {
      var last := pieces[|pieces| - 1];
      assert Body(last) + [] == Body(last);
      ClosedByFirst(c, pieces[..|pieces| - 1], Body(last), next);
    }
  }

  lemma {:induction false} TailIsSuffix(c: Chunker, text: string)
    requires Sized(c)
    ensures GetTail(c, text) == Suffix(c, text)
  {
  }

  /** Before a flush or without one, what the paragraph meets. */
  lemma {:induction false} FlushCarries(c: Chunker, plan: Plan, para: string)
    requires Sized(c) && PlanCarries(c, plan) && para != ""
    ensures var p := Flush(c, plan, para);
            && AllCarry(c, p.pieces) && AllClosed(c, p.pieces, p.paras + [para])
            && p.tail == Carried(c, p.pieces) && HadRoom(c, p.tail, p.paras)
            && (p.paras != [] ==> ByteLen(Render(p.tail, p.paras)) + |para| + 2 <= c.size)
  {
    hide Render, ByteLen, Suffix, HadRoom, AllCarry, AllClosed;
    var text, piece := Render(plan.tail, plan.paras), Buffer(plan.tail, plan.paras);
    if ByteLen(text) + |para| + 2 > c.size && text != "" {
      CarryAppend(c, plan.pieces, piece, [para]);
      TailIsSuffix(c, text);
      FlushedRoom(c, GetTail(c, text));
      assert [] + [para] == [para];
      if plan.paras == [] {
        RenderTail("");
      }
      ClosedByFirst(c, plan.pieces, plan.paras, [para]);
    } else if plan.paras == [] {
      assert [] + [para] == [para];
      ClosedAfterCut(c, plan.pieces, [para]);
    } else {
      ClosedByFirst(c, plan.pieces, plan.paras, [para]);
      RenderIsEmptyIff(plan.tail, plan.paras);
    }
  }

  lemma {:induction false} FlushedRoom(c: Chunker, tail: string)
    ensures HadRoom(c, tail, [])
  {
  }

  lemma {:induction false} RenderIsEmptyIff(tail: string, paras: seq<string>)
    requires paras != [] && forall i :: 0 <= i < |paras| ==> paras[i] != ""
    ensures Render(tail, paras) != ""
  {
  }

  lemma {:induction false} RoomGrows(c: Chunker, tail: string, paras: seq<string>, para: string)
    requires HadRoom(c, tail, paras) && |para| <= c.size
    requires paras != [] ==> ByteLen(Render(tail, paras)) + |para| + 2 <= c.size
    ensures HadRoom(c, tail, paras + [para])
  {
    hide Render, ByteLen;
    var all := paras + [para];
    assert all[..|paras|] == paras;
    assert forall j :: 0 <= j <= |paras| ==> all[..j] == paras[..j];
  }

  lemma {:induction false} AddParagraphCarries(c: Chunker, plan: Plan, para: string)
    requires Sized(c) && PlanCarries(c, plan) && para != ""
    ensures PlanCarries(c, AddParagraph(c, plan, para))
  {
    hide Render, ByteLen, Suffix, HadRoom, AllCarry, AllClosed, Flush;
    FlushCarries(c, plan, para);
    var p := Flush(c, plan, para);
    FlushKeepsWords(c, plan, para);
    if |para| > c.size {
      var cut, buffer := Cut(para), Buffer(p.tail, p.paras);
      FlushedRoom(c, "");
      LongClosesAnything(c, buffer, para);
      if Render(p.tail, p.paras) == "" {
        EmptyRenderHoldsNothing(p.tail, p.paras);
        assert [para] + [] == [para] && p.paras + [para] == [para];
        CarryAppend(c, p.pieces, cut, []);
      } else {
        assert Body(buffer) + ([para] + []) == p.paras + [para];
        CarryAppend(c, p.pieces, buffer, [para] + []);
        CarryAppend(c, p.pieces + [buffer], cut, []);
      }
    } else {
      RoomGrows(c, p.tail, p.paras, para);
    }
  }

  lemma {:induction false} FlushKeepsWords(c: Chunker, plan: Plan, para: string)
    requires Sized(c)
    ensures Flush(c, plan, para).paras == plan.paras || Flush(c, plan, para).paras == []
  {
    hide Render, ByteLen;
  }

  lemma {:induction false} LongClosesAnything(c: Chunker, piece: Piece, para: string)
    requires |para| > c.size
    ensures Closed(c, piece, [para] + [])
  {
    hide Render, ByteLen;
  }

  lemma {:induction false} PlanOfCarries(c: Chunker, paras: seq<string>)
    requires Sized(c) && forall i :: 0 <= i < |paras| ==> paras[i] != ""
    ensures PlanCarries(c, PlanOf(c, paras))
    decreases |paras|
  {
    hide PlanCarries, AddParagraph;
    if paras == [] {
      EmptyPlanCarries(c);
    } else {
      var init := paras[..|paras| - 1];
      assert forall i :: 0 <= i < |init| ==> init[i] == paras[i];
      PlanOfCarries(c, init);
      AddParagraphCarries(c, PlanOf(c, init), paras[|paras| - 1]);
    }
  }

  lemma {:induction false} EmptyPlanCarries(c: Chunker)
    requires Sized(c)
    ensures PlanCarries(c, Plan([], "", []))
  {
  }

  /**
   * The overlap and the filling, said of the pieces alone. A chunk right after another buffer begins
   * with exactly the last overlap runes of it, or all of it, and any other begins with nothing. A
   * paragraph joined a buffer that already had one only if the bytes so far, its runes and 2 stay
   * within the size, and a buffer was closed before a paragraph only if they would not.
   */
  lemma {:induction false} ChunksCarryTheirTails(c: Chunker, doc: RawDocument)
    requires Sized(c)
    ensures AllCarry(c, PiecesOf(c, doc)) && AllClosed(c, PiecesOf(c, doc), [])
  {
    hide AllCarry, AllClosed, Render, HadRoom, Suffix, PlanOf;
    var paras := ParagraphsOf(doc);
    NonBlankAreNonEmpty(Split(Trim(doc.content), "\n\n"));
    PlanOfCarries(c, paras);
    var plan := PlanOf(c, paras);
    if Render(plan.tail, plan.paras) == "" {
      EmptyRenderHoldsNothing(plan.tail, plan.paras);
    } else {
      assert plan.paras + [] == plan.paras;
      CarryAppend(c, plan.pieces, Buffer(plan.tail, plan.paras), []);
    }
  }

  /** A buffer's text is its tail, if any, and its paragraphs, with a blank line between any two. */
  lemma {:induction false} RenderJoins(tail: string, paras: seq<string>)
    requires forall i :: 0 <= i < |paras| ==> paras[i] != ""
    ensures Render(tail, paras) == Join((if tail == "" then [] else [tail]) + paras, "\n\n")
    decreases |paras|
  {
    var head := if tail == "" then [] else [tail];
    if paras == [] {
      assert head + paras == head;
    } else {
      var init, last := paras[..|paras| - 1], paras[|paras| - 1];
      RenderJoins(tail, init);
      RenderEmptyIff(tail, init);
      assert head + paras == (head + init) + [last];
      JoinAppend(head + init, last, "\n\n");
    }
  }

  lemma {:induction false} RenderEmptyIff(tail: string, paras: seq<string>)
    requires forall i :: 0 <= i < |paras| ==> paras[i] != ""
    ensures Render(tail, paras) == "" <==> tail == "" && paras == []
  {
  }

  lemma {:induction false} JoinAppend(parts: seq<string>, last: string, sep: string)
    ensures Join(parts + [last], sep) == if parts == [] then last else Join(parts, sep) + sep + last
    decreases |parts|
  {
    if |parts| > 0 {
      assert (parts + [last])[0] == parts[0] && (parts + [last])[1..] == parts[1..] + [last];
      JoinAppend(parts[1..], last, sep);
    }
  }

  /** Bytes are counted as UTF-8 has them: one for each ASCII character, and two, three or four for any other. */
  lemma {:induction false} ByteLenCounts(s: string)
    ensures |s| <= ByteLen(s) <= 4 * |s|
    ensures ByteLen(s) == |s| <==> forall i :: 0 <= i < |s| ==> s[i] < '\U{0080}'
    ensures (forall i :: 0 <= i < |s| ==> '\U{0080}' <= s[i] < '\U{0800}') ==> ByteLen(s) == 2 * |s|
    ensures (forall i :: 0 <= i < |s| ==> '\U{0800}' <= s[i] <= '\U{FFFF}') ==> ByteLen(s) == 3 * |s|
    ensures (forall i :: 0 <= i < |s| ==> s[i] > '\U{FFFF}') ==> ByteLen(s) == 4 * |s|
    decreases |s|
  {
    if s != "" {
      ByteLenCounts(s[..|s| - 1]);
    }
  }

  /** A paragraph: trimmed, not empty, and without a blank line. */
  predicate Para(p: string) {
    p != "" && Trimmed(p) && IndexOf(p, "\n\n") == -1
  }

  /** The first blank line after a paragraph stands right at its end. */
  lemma {:induction false} BlankLineAfter(p: string, tail: string)
    requires Para(p)
    ensures IndexOf(p + "\n\n" + tail, "\n\n") == |p|
  {
    var s := p + "\n\n" + tail;
    assert At(s, "\n\n", |p|);
    assert IsSpace('\n');
    forall k | 0 <= k < |p| ensures !At(s, "\n\n", k) {
      if k == |p| - 1 {
        assert s[k] == p[k] != '\n' && s[k..k + 2][0] == s[k];
      } else {
        assert s[k..k + 2] == p[k..k + 2];
        assert !At(p, "\n\n", k);
      }
    }
  }

  lemma {:induction false} SplitParas(ps: seq<string>)
    requires ps != [] && forall i :: 0 <= i < |ps| ==> Para(ps[i])
    ensures Split(Join(ps, "\n\n"), "\n\n") == ps
    decreases |ps|
  {
    hide IndexOf, Trimmed;
    var p, rest := ps[0], ps[1..];
    assert Para(p);
    if rest != [] {
      var tail := Join(rest, "\n\n");
      var s := p + "\n\n" + tail;
      BlankLineAfter(p, tail);
      assert forall i :: 0 <= i < |rest| ==> rest[i] == ps[i + 1];
      SplitParas(rest);
      assert s[..|p|] == p && s[|p| + 2..] == tail;
      assert ps == [p] + rest;
    }
  }

  lemma {:induction false} ParasStay(ps: seq<string>)
    requires forall i :: 0 <= i < |ps| ==> Para(ps[i])
    ensures NonBlank(ps) == ps
    decreases |ps|
  {
    hide Trim, Trimmed, IndexOf;
    if ps != [] {
      var init, last := ps[..|ps| - 1], ps[|ps| - 1];
      assert forall i :: 0 <= i < |init| ==> init[i] == ps[i];
      ParasStay(init);
      assert Para(last);
      StaysTrimmed(last);
      assert ps == init + [last];
    }
  }

  lemma {:induction false} StaysTrimmed(s: string)
    requires Trimmed(s)
    ensures Trim(s) == s
  {
  }

  lemma {:induction false} JoinedParasAreTrimmed(ps: seq<string>)
    requires ps != [] && forall i :: 0 <= i < |ps| ==> Para(ps[i])
    ensures Trimmed(Join(ps, "\n\n")) && Join(ps, "\n\n") != ""
    decreases |ps|
  {
    hide IsSpace, IndexOf;
    assert Para(ps[0]);
    if |ps| > 1 {
      var rest := ps[1..];
      assert forall i :: 0 <= i < |rest| ==> rest[i] == ps[i + 1];
      JoinedParasAreTrimmed(rest);
      var tail := Join(rest, "\n\n");
      var s := ps[0] + "\n\n" + tail;
      assert s[0] == ps[0][0] && s[|s| - 1] == tail[|tail| - 1];
    }
  }

  /** Paragraphs written with a blank line between them are read back, single line breaks inside included. */
  lemma {:induction false} ParagraphsReadBack(ps: seq<string>, doc: RawDocument)
    requires ps != [] && forall i :: 0 <= i < |ps| ==> Para(ps[i])
    requires doc.content == Join(ps, "\n\n")
    ensures ParagraphsOf(doc) == ps
  {
    hide Split, Join, NonBlank, Para, Trim, Trimmed;
    JoinedParasAreTrimmed(ps);
    StaysTrimmed(doc.content);
    SplitParas(ps);
    ParasStay(ps);
  }

  /** A chunk of the document that holds the given text. */
  ghost predicate IsChunkOf(chunk: Chunk, doc: RawDocument, content: string) {
    && chunk.content == content && chunk.documentID == doc.id && chunk.metadata == doc.metadata
    && ("source" in doc.metadata ==> chunk.source == doc.metadata["source"])
    && ("source" !in doc.metadata ==> chunk.source == "")
    && ("document_type" in doc.metadata ==> chunk.documentType == doc.metadata["document_type"])
    && ("document_type" !in doc.metadata ==> chunk.documentType == "")
  }

  /** Every chunk of a list of documents comes from one of them and names its source and type. */
  lemma {:induction false} ChunksComeFromDocuments(c: Chunker, docs: seq<RawDocument>)
    requires Sized(c)
    ensures forall chunk :: chunk in ChunkSpec(c, docs) ==>
              exists i :: 0 <= i < |docs| && IsChunkOf(chunk, docs[i], chunk.content)
    decreases |docs|
  {
    hide PiecesOf, Contents, IsChunkOf;
    if docs != [] {
      var init, last := docs[..|docs| - 1], docs[|docs| - 1];
      ChunksComeFromDocuments(c, init);
      forall chunk | chunk in ChunkSpec(c, docs)
        ensures exists i :: 0 <= i < |docs| && IsChunkOf(chunk, docs[i], chunk.content)
      {
        if chunk in ChunkSpec(c, init) {
          var i :| 0 <= i < |init| && IsChunkOf(chunk, init[i], chunk.content);
          assert docs[i] == init[i];
        } else {
          assert chunk in ChunkDocumentSpec(c, last);
          MadeChunk(chunk.content, last);
          assert docs[|docs| - 1] == last;
        }
      }
    }
  }

  lemma {:induction false} MadeChunk(content: string, doc: RawDocument)
    ensures IsChunkOf(MakeChunk(content, doc), doc, content)
  {
  }
}

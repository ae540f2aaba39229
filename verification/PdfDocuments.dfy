/** From the pages of a PDF to the paragraphs that the chunker sees. */
module PdfDocuments {
  import opened Text
  import opened PdfText
  import Chunking

  /** The output paragraphs of one page. */
  function PageParagraphs(page: string): seq<string> {
    Paragraphs(Groups(PageFragments(Trim(page))))
  }

  /** The normalized pages that are not blank. */
  function Pages(texts: seq<string>): seq<string>
    decreases |texts|
  {
    if texts == [] then []
    else
      var before, page := Pages(texts[..|texts| - 1]), Trim(texts[|texts| - 1]);
      if page == "" then before else before + [Normalize(page)]
  }

  /** The output paragraphs of all pages in order. */
  function AllParagraphs(texts: seq<string>): seq<string>
    decreases |texts|
  {
    if texts == [] then [] else AllParagraphs(texts[..|texts| - 1]) + PageParagraphs(texts[|texts| - 1])
  }

  /** The page loop over the extracted texts. */
  method ParsePDF(texts: seq<string>) returns (content: string)
    ensures content == Join(Pages(texts), "\n\n")
  {
    hide Normalize, Trim;
    var pages: seq<string>, i := [], 0;
    while i < |texts|
      invariant 0 <= i <= |texts|
      invariant pages == Pages(texts[..i])
    {
      var trimmed := Trim(texts[i]);
      assert texts[..i + 1][..i] == texts[..i];
      if trimmed != "" {
        var page := NormalizePDFText(trimmed);
        pages := pages + [page];
      }
      i := i + 1;
    }
    assert texts[..i] == texts;
    content := Join(pages, "\n\n");
  }

  // ---------- joining ----------

  lemma {:induction false} JoinConcat(a: seq<string>, b: seq<string>)
    requires a != [] && b != []
    ensures Join(a + b, "\n\n") == Join(a, "\n\n") + "\n\n" + Join(b, "\n\n")
    decreases |a|
  {
    assert (a + b)[0] == a[0] && (a + b)[1..] == a[1..] + b;
    if |a| > 1 {
      JoinConcat(a[1..], b);
    }
  }

  lemma {:induction false} JoinOne(p: string)
    ensures Join([p], "\n\n") == p
  {
  }

  /** A page without text has no paragraph, and any other has one. */
  lemma {:induction false} PageHasParagraphs(page: string)
    ensures PageParagraphs(page) == [] <==> Trim(page) == ""
  {
    hide Paragraph, EndsSentence, Split, Trim, NonBlank, Ink;
    var text := Trim(page);
    var words := PageFragments(text);
    if text == "" {
      assert Split("", "\n") == [""] by { SplitOfEmpty(); }
      BlankLine();
      assert words == [];
    } else {
      NormalizeKeepsInk(text);
      InkOfTrimmed(page);
      NoWordsNoText(text);
    }
    NoGroups(words);
  }

  lemma {:induction false} NoWordsNoText(text: string)
    ensures PageFragments(text) == [] ==> Normalize(text) == "" && Ink(Normalize(text)) == ""
  {
    hide Paragraph, EndsSentence, NonBlank, Split;
  }

  lemma {:induction false} SplitOfEmpty()
    ensures Split("", "\n") == [""]
  {
    IndexOfNone("", '\n');
  }

  lemma {:induction false} NoGroups(words: seq<string>)
    ensures Groups(words) == [] <==> words == []
  {
    hide EndsSentence;
  }

  lemma {:induction false} InkOfTrimmed(page: string)
    requires Trim(page) != ""
    ensures Ink(Trim(page)) != ""
  {
    hide TrimLeft, TrimRight, IsSpace;
  }

  /** The pages joined are all their paragraphs joined. */
  lemma {:induction false} PagesJoin(texts: seq<string>)
    ensures Join(Pages(texts), "\n\n") == Join(AllParagraphs(texts), "\n\n")
    ensures Pages(texts) == [] <==> AllParagraphs(texts) == []
    decreases |texts|
  {
    hide Normalize, Trim, PageParagraphs, Join;
    if texts != [] {
      var init, last := texts[..|texts| - 1], texts[|texts| - 1];
      var pages, all, mine := Pages(init), AllParagraphs(init), PageParagraphs(last);
      PagesJoin(init);
      PageHasParagraphs(last);
      NormalizeJoins(last);
      if Trim(last) == "" {
        assert all + mine == all;
      } else {
        JoinOne(Normalize(Trim(last)));
        if pages == [] {
          assert pages + [Normalize(Trim(last))] == [Normalize(Trim(last))] && all + mine == mine;
        } else {
          JoinConcat(pages, [Normalize(Trim(last))]);
          JoinConcat(all, mine);
        }
      }
    }
  }

  lemma {:induction false} NormalizeJoins(page: string)
    ensures Normalize(Trim(page)) == Join(PageParagraphs(page), "\n\n")
  {
  }

  lemma {:induction false} AllAreFragments(texts: seq<string>)
    ensures AllFragments(AllParagraphs(texts))
    decreases |texts|
  {
    hide Fragment, Paragraphs, Groups, PageFragments, Trim;
    if texts != [] {
      AllAreFragments(texts[..|texts| - 1]);
      ParagraphsShape(Trim(texts[|texts| - 1]));
    }
  }

  // ---------- splitting ----------

  /** A fragment is the part before the first blank line that follows it. */
  lemma {:induction false} FirstParagraph(p: string, tail: string)
    requires '\n' !in p
    ensures IndexOf(p + "\n\n" + tail, "\n\n") == |p| && IndexOf(p, "\n\n") == -1
  {
    var s := p + "\n\n" + tail;
    assert At(s, "\n\n", |p|);
    forall k | 0 <= k < |p| ensures !At(s, "\n\n", k) {
      assert s[k] == p[k];
      if At(s, "\n\n", k) {
        AtStarts(s, "\n\n", k);
      }
    }
    forall k ensures !At(p, "\n\n", k) {
      if At(p, "\n\n", k) {
        AtStarts(p, "\n\n", k);
      }
    }
  }

  lemma {:induction false} AtStarts(s: string, sep: string, k: int)
    requires At(s, sep, k) && sep != ""
    ensures s[k] == sep[0] && sep[0] in s
  {
    assert s[k..k + |sep|][0] == s[k];
  }

  lemma {:induction false} SplitJoined(ps: seq<string>)
    requires ps != [] && AllFragments(ps)
    ensures Split(Join(ps, "\n\n"), "\n\n") == ps
    decreases |ps|
  {
    hide Fragment, IndexOf;
    var p, rest := ps[0], ps[1..];
    FragmentHasNoNewline(p);
    if rest == [] {
      FirstParagraph(p, "");
    } else {
      var tail := Join(rest, "\n\n");
      var s := p + "\n\n" + tail;
      FirstParagraph(p, tail);
      assert forall i :: 0 <= i < |rest| ==> rest[i] == ps[i + 1];
      SplitJoined(rest);
      assert s[..|p|] == p && s[|p| + 2..] == tail;
      assert ps == [p] + rest;
    }
  }

  lemma {:induction false} FragmentsStay(ps: seq<string>)
    requires AllFragments(ps)
    ensures NonBlank(ps) == ps
    decreases |ps|
  {
    hide Trim, Trimmed;
    if ps != [] {
      var init, last := ps[..|ps| - 1], ps[|ps| - 1];
      assert forall i :: 0 <= i < |init| ==> init[i] == ps[i];
      FragmentsStay(init);
      TrimmedStays(last);
      assert ps == init + [last];
    }
  }

  /** Joined fragments begin and end with ink. */
  lemma {:induction false} JoinedIsTrimmed(ps: seq<string>)
    requires ps != [] && AllFragments(ps)
    ensures Trimmed(Join(ps, "\n\n")) && Join(ps, "\n\n") != ""
    decreases |ps|
  {
    hide IsSpace;
    if |ps| > 1 {
      var rest := ps[1..];
      assert forall i :: 0 <= i < |rest| ==> rest[i] == ps[i + 1];
      JoinedIsTrimmed(rest);
      var tail := Join(rest, "\n\n");
      var s := ps[0] + "\n\n" + tail;
      assert s[0] == ps[0][0] && s[|s| - 1] == tail[|tail| - 1];
    }
  }

  /**
   * The two halves of ingestion meet: the paragraphs into which the chunker splits a parsed PDF are
   * exactly the normalizer's output paragraphs of its pages, in order, page ends included.
   */
  lemma {:induction false} ChunkerSeesParagraphs(texts: seq<string>, doc: Chunking.RawDocument)
    requires doc.content == Join(Pages(texts), "\n\n")
    ensures Chunking.ParagraphsOf(doc) == AllParagraphs(texts)
  {
    hide Pages, AllParagraphs, Join, Split, Trim, NonBlank, AllFragments;
    var all := AllParagraphs(texts);
    PagesJoin(texts);
    AllAreFragments(texts);
    if all == [] {
      NothingJoined();
    } else {
      JoinedIsTrimmed(all);
      TrimmedStays(doc.content);
      SplitJoined(all);
      FragmentsStay(all);
    }
  }

  lemma {:induction false} NothingJoined()
    ensures NonBlank(Split(Trim(Join([], "\n\n")), "\n\n")) == []
  {
    assert Trim("") == "";
    assert Split("", "\n\n") == [""];
    BlankLine();
  }

  lemma {:induction false} TrimmedStays(s: string)
    requires Trimmed(s)
    ensures Trim(s) == s
  {
  }
}

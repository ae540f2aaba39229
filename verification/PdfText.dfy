/** Rebuilding prose paragraphs from the line fragments of an extracted PDF page. */
module PdfText {
  import opened Text

  /** Punctuation that closes a sentence or a code line. */
  predicate Closer(c: char) {
    c in {'.', '!', '?', ':', ';', ')', '}', ']', '{', '"', '\''}
  }

  /** The code looks at the last byte; every closer is ASCII, so that is the last character. */
  predicate EndsSentence(line: string) {
    line != "" && Closer(line[|line| - 1])
  }

  predicate EndsHyphen(line: string) {
    line != "" && line[|line| - 1] == '-'
  }

  /** A fragment: not blank, trimmed, on one line. */
  predicate Fragment(s: string) {
    s != "" && Trimmed(s) && '\n' !in s
  }

  predicate AllFragments(words: seq<string>) {
    forall i :: 0 <= i < |words| ==> Fragment(words[i])
  }

  // ---------- specification ----------

  /**
   * Append words to b, with a space before each unless the word before it ended with a hyphen; a
   * word taken that way is not itself looked at for a hyphen.
   */
  function Glue(b: string, joinNext: bool, words: seq<string>): string
    decreases |words|
  {
    if words == [] then b
    else if joinNext then Glue(b + words[0], false, words[1..])
    else Glue((if b != "" then b + " " else b) + words[0], EndsHyphen(words[0]), words[1..])
  }

  function Paragraph(words: seq<string>): string {
    Glue("", false, words)
  }

  /** Closed groups of fragments, and the group still open. */
  datatype Grouped = Grouped(done: seq<seq<string>>, open: seq<string>)

  /** Cut after every fragment that ends a sentence. */
  function Group(words: seq<string>): Grouped
    decreases |words|
  {
    if words == [] then Grouped([], [])
    else
      var g, w := Group(words[..|words| - 1]), words[|words| - 1];
      if EndsSentence(w) then Grouped(g.done + [g.open + [w]], []) else Grouped(g.done, g.open + [w])
  }

  function Groups(words: seq<string>): seq<seq<string>> {
    var g := Group(words);
    if g.open == [] then g.done else g.done + [g.open]
  }

  function Paragraphs(groups: seq<seq<string>>): (r: seq<string>)
    ensures |r| == |groups|
    ensures forall i :: 0 <= i < |r| ==> r[i] == Paragraph(groups[i])
  {
    seq(|groups|, i requires 0 <= i < |groups| => Paragraph(groups[i]))
  }

  function PageFragments(text: string): seq<string> {
    NonBlank(Split(text, "\n"))
  }

  function Normalize(text: string): string {
    Join(Paragraphs(Groups(PageFragments(text))), "\n\n")
  }

  // ---------- the loops of the source ----------

  method BuildParagraph(words: seq<string>) returns (para: string)
    ensures para == Paragraph(words)
  {
    para := "";
    var joinNext, i := false, 0;
    while i < |words|
      invariant 0 <= i <= |words|
      invariant Glue(para, joinNext, words[i..]) == Paragraph(words)
    {
      var w := words[i];
      assert words[i..][0] == w && words[i..][1..] == words[i + 1..];
      i := i + 1;
      if joinNext {
        para, joinNext := para + w, false;
        continue;
      }
      if |para| > 0 {
        para := para + " ";
      }
      para, joinNext := para + w, EndsHyphen(w);
    }
  }

  method NormalizePDFText(pageText: string) returns (r: string)
    ensures r == Normalize(pageText)
  {
    hide Paragraph, Group, NonBlank, Split, Trim, EndsSentence, Join;
    var lines := Split(pageText, "\n");
    var paras: seq<string>, words: seq<string> := [], [];
    NoLinesYet();
    var i := 0;
    while i < |lines|
      invariant 0 <= i <= |lines|
      invariant words == Group(NonBlank(lines[..i])).open
      invariant paras == Paragraphs(Group(NonBlank(lines[..i])).done)
    {
      var line := Trim(lines[i]);
      NextLine(lines, i);
      i := i + 1;
      if line == "" {
        continue;
      }
      words := words + [line];
      if EndsSentence(line) {
        var para := BuildParagraph(words);
        ParagraphsAppend(Group(NonBlank(lines[..i - 1])).done, words);
        paras, words := paras + [para], [];
      }
    }
    assert lines[..i] == lines;
    if words != [] {
      var para := BuildParagraph(words);
      ParagraphsAppend(Group(NonBlank(lines)).done, words);
      paras := paras + [para];
    }
    r := Join(paras, "\n\n");
  }

  lemma {:induction false} NoLinesYet()
    ensures Group(NonBlank([])) == Grouped([], [])
  {
  }

  /** How one more line changes the grouping. */
  lemma {:induction false} NextLine(lines: seq<string>, i: nat)
    requires i < |lines|
    ensures Group(NonBlank(lines[..i + 1]))
         == var line, g := Trim(lines[i]), Group(NonBlank(lines[..i]));
            if line == "" then g
            else if EndsSentence(line) then Grouped(g.done + [g.open + [line]], [])
            else Grouped(g.done, g.open + [line])
  {
    hide Trim, EndsSentence;
    assert lines[..i + 1][..i] == lines[..i];
    var before, line := NonBlank(lines[..i]), Trim(lines[i]);
    assert (before + [line])[..|before|] == before;
  }

  lemma {:induction false} ParagraphsAppend(groups: seq<seq<string>>, g: seq<string>)
    ensures Paragraphs(groups + [g]) == Paragraphs(groups) + [Paragraph(g)]
  {
    hide Paragraph;
  }

  // ---------- grouping ----------

  function Flat(groups: seq<seq<string>>): seq<string> {
    if groups == [] then [] else Flat(groups[..|groups| - 1]) + groups[|groups| - 1]
  }

  /** Only the last fragment of a group may end a sentence. */
  predicate OnlyLastEnds(g: seq<string>) {
    g != [] && forall i :: 0 <= i < |g| - 1 ==> !EndsSentence(g[i])
  }

  predicate Ended(g: seq<string>) {
    OnlyLastEnds(g) && EndsSentence(g[|g| - 1])
  }

  lemma {:induction false} GroupShape(words: seq<string>)
    ensures var g := Group(words);
            && Flat(g.done) + g.open == words
            && (forall i :: 0 <= i < |g.done| ==> Ended(g.done[i]))
            && (forall i :: 0 <= i < |g.open| ==> !EndsSentence(g.open[i]))
    decreases |words|
  {
    hide EndsSentence, Flat;
    if words == [] {
      assert Flat([]) == [] by { FlatOfNone(); }
    } else {
      var init, w := words[..|words| - 1], words[|words| - 1];
      GroupShape(init);
      var g := Group(init);
      assert words == init + [w];
      assert words == Flat(g.done) + (g.open + [w]);
      FlatAppend(g.done, g.open + [w]);
    }
  }

  lemma {:induction false} FlatOfNone()
    ensures Flat([]) == []
  {
  }

  lemma {:induction false} FlatAppend(groups: seq<seq<string>>, g: seq<string>)
    ensures Flat(groups + [g]) == Flat(groups) + g
  {
    assert (groups + [g])[..|groups|] == groups;
  }

  /**
   * The groups hold every fragment once and in order. Every group but possibly the last ends a
   * sentence, and no fragment before the last of its group does.
   */
  lemma {:induction false} GroupsShape(words: seq<string>)
    ensures var groups := Groups(words);
            && Flat(groups) == words
            && (forall i :: 0 <= i < |groups| ==> OnlyLastEnds(groups[i]))
            && (forall i :: 0 <= i < |groups| - 1 ==> Ended(groups[i]))
  {
    GroupShape(words);
    var g := Group(words);
    if g.open != [] {
      FlatAppend(g.done, g.open);
    }
  }

  // ---------- paragraphs ----------

  lemma {:induction false} GlueEnds(b: string, joinNext: bool, words: seq<string>)
    requires AllFragments(words) && words != []
    requires b != "" ==> !IsSpace(b[0]) && '\n' !in b
    ensures var r := Glue(b, joinNext, words);
            && r != "" && '\n' !in r && !IsSpace(r[0])
            && r[|r| - 1] == words[|words| - 1][|words[|words| - 1]| - 1]
    decreases |words|
  {
    hide IsSpace;
    BlankIsSpace();
    var next := (if joinNext || b == "" then b else b + " ") + words[0];
    assert next[|next| - 1] == words[0][|words[0]| - 1];
    assert next[0] == if b == "" then words[0][0] else b[0];
    var rest := words[1..];
    if rest != [] {
      assert rest[|rest| - 1] == words[|words| - 1];
      assert forall i :: 0 <= i < |rest| ==> rest[i] == words[i + 1];
      GlueEnds(next, if joinNext then false else EndsHyphen(words[0]), rest);
    }
  }

  lemma {:induction false} BlankIsSpace()
    ensures IsSpace(' ') && IsSpace('\n')
  {
  }

  /** A paragraph of fragments is itself a fragment and ends as its last fragment does. */
  lemma {:induction false} ParagraphIsFragment(words: seq<string>)
    requires AllFragments(words) && words != []
    ensures Fragment(Paragraph(words))
    ensures EndsSentence(Paragraph(words)) == EndsSentence(words[|words| - 1])
  {
    GlueEnds("", false, words);
  }

  lemma {:induction false} FragmentsAreFragments(lines: seq<string>)
    requires forall i :: 0 <= i < |lines| ==> '\n' !in lines[i]
    ensures AllFragments(NonBlank(lines))
    decreases |lines|
  {
    hide Trimmed, IsSpace;
    if lines != [] {
      FragmentsAreFragments(lines[..|lines| - 1]);
      TrimIsPart(lines[|lines| - 1], '\n');
    }
  }

  lemma {:induction false} TrimIsPart(s: string, c: char)
    requires c !in s
    ensures c !in Trim(s)
  {
    var l := TrimLeft(s);
    var t := TrimRight(l);
    assert Trim(s) == t;
    hide *;
    assert l == s[|s| - |l|..] && t == l[..|t|];
    forall i | 0 <= i < |t| ensures t[i] != c {
      assert t[i] == l[i] == s[|s| - |l| + i];
    }
  }

  lemma {:induction false} PageFragmentsAreFragments(text: string)
    ensures AllFragments(PageFragments(text))
  {
    var lines := Split(text, "\n");
    forall i | 0 <= i < |lines| ensures '\n' !in lines[i] {
      assert lines[i] in lines;
      IndexOfNone(lines[i], '\n');
    }
    FragmentsAreFragments(lines);
  }

  lemma {:induction false} FlatMembers(groups: seq<seq<string>>, k: nat)
    requires AllFragments(Flat(groups)) && k < |groups|
    ensures AllFragments(groups[k])
  {
    var init, last := groups[..|groups| - 1], groups[|groups| - 1];
    var flat := Flat(groups);
    assert forall i :: 0 <= i < |last| ==> last[i] == flat[|Flat(init)| + i];
    assert forall i :: 0 <= i < |Flat(init)| ==> Flat(init)[i] == flat[i];
    if k < |init| {
      FlatMembers(init, k);
    }
  }

  lemma {:induction false} ParagraphOfGroup(group: seq<string>)
    requires AllFragments(group) && OnlyLastEnds(group)
    ensures Fragment(Paragraph(group)) && (Ended(group) ==> EndsSentence(Paragraph(group)))
  {
    hide Fragment, EndsSentence, Paragraph;
    ParagraphIsFragment(group);
  }

  /** What the output paragraphs of a page look like. */
  lemma {:induction false} ParagraphsShape(text: string)
    ensures var paras := Paragraphs(Groups(PageFragments(text)));
            && AllFragments(paras)
            && forall i :: 0 <= i < |paras| - 1 ==> EndsSentence(paras[i])
  {
    hide Fragment, EndsSentence, Paragraph, Groups, Flat, OnlyLastEnds, Ended, PageFragments;
    var words := PageFragments(text);
    PageFragmentsAreFragments(text);
    GroupsShape(words);
    var groups := Groups(words);
    forall i | 0 <= i < |groups|
      ensures Fragment(Paragraph(groups[i])) && (i < |groups| - 1 ==> EndsSentence(Paragraph(groups[i])))
    {
      FlatMembers(groups, i);
      ParagraphOfGroup(groups[i]);
    }
  }

  // ---------- hyphens ----------

  /** The last fragment so far ends with a hyphen. */
  predicate AfterHyphen(before: seq<string>) {
    before != [] && EndsHyphen(before[|before| - 1])
  }

  /** How many fragments in a row, up to the last so far, end with a hyphen. */
  function HyphenRun(before: seq<string>): nat
    decreases |before|
  {
    if AfterHyphen(before) then 1 + HyphenRun(before[..|before| - 1]) else 0
  }

  predicate AfterOddRun(before: seq<string>) {
    HyphenRun(before) % 2 == 1
  }

  /** The fragments in order, a space before each but the first and those that the rule glues to the ones before. */
  function Spaced(words: seq<string>, glued: seq<string> -> bool): string
    decreases |words|
  {
    if words == [] then ""
    else
      var init := words[..|words| - 1];
      Spaced(init, glued) + (if init == [] || glued(init) then "" else " ") + words[|words| - 1]
  }

  /** What the code's own comment describes: a trailing hyphen joins the next fragment without a space. */
  function Promised(words: seq<string>): string {
    Spaced(words, AfterHyphen)
  }

  lemma {:induction false} SpacedStep(words: seq<string>, w: string, glued: seq<string> -> bool)
    ensures Spaced(words + [w], glued)
         == Spaced(words, glued) + (if words == [] || glued(words) then "" else " ") + w
  {
    assert (words + [w])[..|words|] == words;
  }

  lemma {:induction false} HyphenRunStep(words: seq<string>, w: string)
    ensures HyphenRun(words + [w]) == if EndsHyphen(w) then 1 + HyphenRun(words) else 0
    ensures HyphenRun([]) == 0
  {
    assert (words + [w])[..|words|] == words;
  }

  lemma {:induction false} SpacedIsEmptyIff(words: seq<string>, glued: seq<string> -> bool)
    requires AllFragments(words)
    ensures Spaced(words, glued) == "" <==> words == []
  {
    if words != [] {
      assert words[|words| - 1] != "";
    }
  }

  lemma {:induction false} GlueStep(b: string, joinNext: bool, words: seq<string>, k: nat)
    requires k < |words|
    ensures Glue(b, joinNext, words[k..])
         == if joinNext then Glue(b + words[k], false, words[k + 1..])
            else Glue((if b != "" then b + " " else b) + words[k], EndsHyphen(words[k]), words[k + 1..])
  {
    assert words[k..][0] == words[k] && words[k..][1..] == words[k + 1..];
  }

  /** One more fragment: the text and the flag go on as in the rule. */
  lemma {:induction false} OddRunStep(before: seq<string>, w: string)
    requires AllFragments(before)
    ensures var b, glued := Spaced(before, AfterOddRun), AfterOddRun(before);
            && Spaced(before + [w], AfterOddRun) == (if glued || b == "" then b else b + " ") + w
            && AfterOddRun(before + [w]) == (!glued && EndsHyphen(w))
  {
    hide EndsHyphen, AllFragments, Spaced, HyphenRun;
    SpacedStep(before, w, AfterOddRun);
    SpacedIsEmptyIff(before, AfterOddRun);
    HyphenRunStep(before, w);
    var b := Spaced(before, AfterOddRun);
    assert b + "" + w == b + w;
  }

  /** Gluing the rest of the words onto the first k continues from the parity of the hyphens before. */
  lemma {:induction false} GlueContinues(words: seq<string>, k: nat)
    requires AllFragments(words) && k <= |words|
    ensures Glue(Spaced(words[..k], AfterOddRun), AfterOddRun(words[..k]), words[k..]) == Paragraph(words)
  {
    if k == 0 {
      HyphenRunStep([], "");
      assert words[..0] == [] && words[0..] == words;
    } else {
      hide *;
      var before := words[..k - 1];
      GlueContinues(words, k - 1);
      GlueStep(Spaced(before, AfterOddRun), AfterOddRun(before), words, k - 1);
      assert words[..k] == before + [words[k - 1]];
      FragmentsPrefix(words, k - 1);
      OddRunStep(before, words[k - 1]);
    }
  }

  lemma {:induction false} FragmentsPrefix(words: seq<string>, k: nat)
    requires AllFragments(words) && k <= |words|
    ensures AllFragments(words[..k])
  {
  }

  /**
   * Exactly when a fragment is joined without a space: it is not the first, and the run of
   * hyphen-ended fragments right before it has odd length.
   */
  lemma {:induction false} GluedIffOddRun(words: seq<string>)
    requires AllFragments(words)
    ensures Paragraph(words) == Spaced(words, AfterOddRun)
  {
    GlueContinues(words, |words|);
    assert words[..|words|] == words && words[|words|..] == [];
  }

  /** The two fragments right before the one at k both end with a hyphen. */
  predicate PairBefore(words: seq<string>, k: nat) {
    2 <= k < |words| && EndsHyphen(words[k - 2]) && EndsHyphen(words[k - 1])
  }

  /** No two consecutive fragments before the last both end with a hyphen. */
  ghost predicate NoHyphenPairs(words: seq<string>) {
    forall k :: !PairBefore(words, k)
  }

  /** The code never joins where its comment does not, so its paragraph is at least as long. */
  lemma {:induction false} PromisedIsShorter(words: seq<string>)
    ensures |Promised(words)| <= |Spaced(words, AfterOddRun)|
    ensures |Promised(words)| == |Spaced(words, AfterOddRun)| <==> NoHyphenPairs(words)
    ensures NoHyphenPairs(words) ==> Promised(words) == Spaced(words, AfterOddRun)
    decreases |words|
  {
    hide EndsHyphen;
    if words != [] {
      var init := words[..|words| - 1];
      PromisedIsShorter(init);
      PairsStep(words);
      RunOfTwo(init);
    }
  }

  lemma {:induction false} PairsStep(words: seq<string>)
    requires words != []
    ensures var init := words[..|words| - 1];
            NoHyphenPairs(words) <==> NoHyphenPairs(init) && !(AfterHyphen(init) && AfterHyphen(init[..|init| - 1]))
  {
    hide EndsHyphen;
    var init := words[..|words| - 1];
    assert forall k :: 0 <= k < |init| ==> init[k] == words[k];
    assert forall k :: PairBefore(init, k) ==> PairBefore(words, k);
    assert forall k :: PairBefore(words, k) ==> k == |words| - 1 || PairBefore(init, k);
    if AfterHyphen(init) && AfterHyphen(init[..|init| - 1]) {
      assert init[..|init| - 1][|init| - 2] == words[|words| - 3];
      assert PairBefore(words, |words| - 1);
    } else if PairBefore(words, |words| - 1) {
      assert init[..|init| - 1][|init| - 2] == words[|words| - 3];
    }
  }

  /** Without earlier pairs the run before is 0, 1 or 2, and 2 exactly when a pair stands right before. */
  lemma {:induction false} RunOfTwo(init: seq<string>)
    ensures AfterOddRun(init) ==> AfterHyphen(init)
    ensures AfterHyphen(init) && !AfterHyphen(init[..|init| - 1]) ==> AfterOddRun(init)
    ensures NoHyphenPairs(init) && AfterHyphen(init) && AfterHyphen(init[..|init| - 1]) ==> !AfterOddRun(init)
  {
    hide EndsHyphen;
    if AfterHyphen(init) {
      var mid := init[..|init| - 1];
      assert HyphenRun(init) == 1 + HyphenRun(mid);
      if AfterHyphen(mid) {
        var first := mid[..|mid| - 1];
        assert HyphenRun(mid) == 1 + HyphenRun(first);
        if AfterHyphen(first) {
          assert first[|first| - 1] == init[|init| - 3] && mid[|mid| - 1] == init[|init| - 2];
          assert PairBefore(init, |init| - 1);
        }
      }
    }
  }

  /**
   * Every trailing hyphen of a paragraph joins, as the comment says, if and only if no two consecutive
   * fragments before the last both end with a hyphen.
   */
  lemma {:induction false} HyphensJoinIff(words: seq<string>)
    requires AllFragments(words)
    ensures Paragraph(words) == Promised(words) <==> NoHyphenPairs(words)
  {
    hide Paragraph, Promised, Spaced, NoHyphenPairs;
    GluedIffOddRun(words);
    PromisedIsShorter(words);
  }

  /** The second of two hyphens does not join. */
  lemma {:induction false} SecondHyphenIsMissed()
    ensures Paragraph(["a-", "b-", "c"]) == "a-b- c" && Promised(["a-", "b-", "c"]) == "a-b-c"
  {
    var words := ["a-", "b-", "c"];
    assert AllFragments(words) by {
      assert Fragment("a-") && Fragment("b-") && Fragment("c");
    }
    hide Glue, Spaced, Paragraph, Fragment, HyphenRun;
    GluedIffOddRun(words);
    assert [] + ["a-"] == ["a-"] && ["a-"] + ["b-"] == ["a-", "b-"];
    HyphenRunStep([], "a-");
    HyphenRunStep(["a-"], "b-");
    SpacedBySteps(AfterOddRun);
    SpacedBySteps(AfterHyphen);
  }

  lemma {:induction false} SpacedBySteps(glued: seq<string> -> bool)
    ensures Spaced(["a-", "b-", "c"], glued)
         == "a-" + (if glued(["a-"]) then "" else " ") + "b-" + (if glued(["a-", "b-"]) then "" else " ") + "c"
  {
    hide Spaced;
    assert [] + ["a-"] == ["a-"] && ["a-"] + ["b-"] == ["a-", "b-"] && ["a-", "b-"] + ["c"] == ["a-", "b-", "c"];
    SpacedStep([], "a-", glued);
    SpacedStep(["a-"], "b-", glued);
    SpacedStep(["a-", "b-"], "c", glued);
    SpacedOfNone(glued);
  }

  lemma {:induction false} SpacedOfNone(glued: seq<string> -> bool)
    ensures Spaced([], glued) == ""
  {
  }

  // ---------- two fragments ----------

  lemma {:induction false} TwoLines(first: string, second: string)
    requires Fragment(first) && Fragment(second)
    ensures PageFragments(first + "\n" + second) == [first, second]
  {
    SplitTwo(first, second);
    FragmentsOfOne(first);
    FragmentsOfOne(second);
    FragmentsConcat([first], [second]);
    assert [first] + [second] == [first, second];
  }

  lemma {:induction false} SplitTwo(first: string, second: string)
    requires Fragment(first) && Fragment(second)
    ensures Split(first + "\n" + second, "\n") == [first, second]
  {
    hide Trimmed;
    assert first + ['\n'] + second == first + "\n" + second;
    SplitCons(first, '\n', second);
    IndexOfNone(second, '\n');
    assert Split(second, "\n") == [second];
  }

  lemma {:induction false} GroupsOfTwo(first: string, second: string)
    requires !EndsSentence(second)
    ensures Groups([first, second]) == if EndsSentence(first) then [[first], [second]] else [[first, second]]
  {
    hide EndsSentence;
    assert [first][..0] == [] && [first, second][..1] == [first];
    var none: seq<string> := [];
    assert Group([]) == Grouped([], []);
    assert none + [first] == [first] && none + [second] == [second];
    assert Group([first]) == if EndsSentence(first) then Grouped([[first]], []) else Grouped([], [first]);
    assert [first] + [second] == [first, second];
  }

  lemma {:induction false} JoinOfOne(p: string)
    ensures Join([p], "\n\n") == p
  {
  }

  lemma {:induction false} JoinOfTwo(p: string, q: string)
    ensures Join([p, q], "\n\n") == p + "\n\n" + q
  {
    assert [p, q][1..] == [q];
  }

  lemma {:induction false} OneParagraphEach(first: string, second: string)
    ensures Join(Paragraphs([[first], [second]]), "\n\n") == first + "\n\n" + second
  {
    hide Paragraph, Join;
    ParagraphOfOne(first);
    ParagraphOfOne(second);
    assert Paragraphs([[first], [second]]) == [first, second];
    JoinOfTwo(first, second);
  }

  lemma {:induction false} OneParagraph(first: string, second: string)
    requires first != ""
    ensures Join(Paragraphs([[first, second]]), "\n\n")
         == first + (if EndsHyphen(first) then "" else " ") + second
  {
    hide Paragraph, Join, EndsHyphen;
    ParagraphOfTwo(first, second);
    assert Paragraphs([[first, second]]) == [Paragraph([first, second])];
    JoinOfOne(Paragraph([first, second]));
  }

  lemma {:induction false} TwoParagraphs(first: string, second: string)
    requires Fragment(first) && Fragment(second) && !EndsSentence(second)
    ensures Normalize(first + "\n" + second)
         == first + (if EndsSentence(first) then "\n\n" else if EndsHyphen(first) then "" else " ") + second
  {
    FragmentIsInk(first);
    TwoLines(first, second);
    hide PageFragments, Groups, Paragraphs, Fragment, EndsSentence, EndsHyphen, Join;
    GroupsOfTwo(first, second);
    OneParagraphEach(first, second);
    OneParagraph(first, second);
  }

  lemma {:induction false} FragmentIsInk(w: string)
    requires Fragment(w)
    ensures w != ""
  {
  }

  lemma {:induction false} EndsOfTwo(c: char)
    requires !IsSpace(c)
    ensures Fragment("x" + [c]) && Fragment("y") && !EndsSentence("y")
    ensures EndsSentence("x" + [c]) == Closer(c) && EndsHyphen("x" + [c]) == (c == '-')
  {
    assert !IsSpace('x') && !IsSpace('y') && IsSpace('\n');
    var first := "x" + [c];
    assert first[|first| - 1] == c;
  }

  /**
   * Two fragments on a page: after one of these characters a new paragraph begins, after a hyphen
   * nothing comes between, and after any other character a space.
   */
  lemma {:induction false} TwoFragments(c: char)
    requires !IsSpace(c)
    ensures Normalize("x" + [c] + "\ny")
         == "x" + [c]
            + (if c == '.' || c == '!' || c == '?' || c == ':' || c == ';' || c == ')' || c == '}' || c == ']'
                  || c == '{' || c == '"' || c == '\'' then "\n\n"
               else if c == '-' then "" else " ")
            + "y"
  {
    hide Normalize, Fragment, EndsSentence, EndsHyphen, IsSpace;
    EndsOfTwo(c);
    TwoParagraphs("x" + [c], "y");
    assert "x" + [c] + "\ny" == "x" + [c] + "\n" + "y";
  }

  lemma {:induction false} ParagraphOfTwo(first: string, second: string)
    requires first != ""
    ensures Paragraph([first, second]) == first + (if EndsHyphen(first) then "" else " ") + second
  {
    var words := [first, second];
    assert words[1..] == [second] && [second][1..] == [];
    assert "" + first == first;
    assert Glue(first, EndsHyphen(first), [second])
        == if EndsHyphen(first) then Glue(first + second, false, [])
           else Glue(first + " " + second, EndsHyphen(second), []);
  }

  // ---------- idempotence ----------

  lemma {:induction false} FragmentsConcat(a: seq<string>, b: seq<string>)
    ensures NonBlank(a + b) == NonBlank(a) + NonBlank(b)
    decreases |b|
  {
    hide Trim;
    if b == [] {
      assert a + b == a;
    } else {
      var init, last := b[..|b| - 1], b[|b| - 1];
      assert (a + b)[..|a + b| - 1] == a + init && (a + b)[|a + b| - 1] == last;
      FragmentsConcat(a, init);
    }
  }

  lemma {:induction false} FragmentsOfOne(p: string)
    requires Fragment(p)
    ensures NonBlank([p]) == [p] && NonBlank([p, ""]) == [p]
  {
    hide IsSpace;
    assert Trim(p) == p && Trim("") == "";
    assert [p][..0] == [] && [p, ""][..1] == [p];
    assert NonBlank([p]) == [p];
  }

  /** Splitting the paragraphs' join into lines gives the paragraphs back, with blank lines dropped. */
  lemma {:induction false} JoinedParagraphs(ps: seq<string>)
    requires AllFragments(ps)
    ensures PageFragments(Join(ps, "\n\n")) == ps
    decreases |ps|
  {
    hide Fragment, Trim, Trimmed, NonBlank;
    if ps == [] {
      assert Split("", "\n") == [""] by { IndexOfNone("", '\n'); }
      BlankLine();
    } else {
      var p, rest := ps[0], ps[1..];
      FragmentHasNoNewline(p);
      FragmentsOfOne(p);
      if rest == [] {
        IndexOfNone(p, '\n');
        assert Split(p, "\n") == [p];
      } else {
        assert forall i :: 0 <= i < |rest| ==> rest[i] == ps[i + 1];
        JoinedParagraphs(rest);
        var tail := Join(rest, "\n\n");
        assert Join(ps, "\n\n") == p + "\n\n" + tail;
        SplitParagraph(p, tail);
        FragmentsConcat([p, ""], Split(tail, "\n"));
        assert ps == [p] + rest;
      }
    }
  }

  lemma {:induction false} SplitParagraph(p: string, tail: string)
    requires '\n' !in p
    ensures Split(p + "\n\n" + tail, "\n") == [p, ""] + Split(tail, "\n")
  {
    hide Split;
    var rest := "" + ['\n'] + tail;
    assert p + "\n\n" + tail == p + ['\n'] + rest;
    SplitCons(p, '\n', rest);
    SplitCons("", '\n', tail);
  }

  lemma {:induction false} FragmentHasNoNewline(p: string)
    requires Fragment(p)
    ensures '\n' !in p
  {
  }

  lemma {:induction false} BlankLine()
    ensures NonBlank([""]) == []
  {
    assert [""][..0] == [];
    assert Trim("") == "";
  }

  function Singles(ps: seq<string>): (r: seq<seq<string>>)
    ensures |r| == |ps| && forall i :: 0 <= i < |ps| ==> r[i] == [ps[i]]
  {
    seq(|ps|, i requires 0 <= i < |ps| => [ps[i]])
  }

  /** Fragments that all end sentences, but possibly the last, each form a group of their own. */
  lemma {:induction false} EndedAreAlone(ps: seq<string>)
    requires forall i :: 0 <= i < |ps| ==> EndsSentence(ps[i])
    ensures Group(ps) == Grouped(Singles(ps), [])
    decreases |ps|
  {
    hide EndsSentence;
    if ps != [] {
      var init := ps[..|ps| - 1];
      assert forall i :: 0 <= i < |init| ==> init[i] == ps[i];
      EndedAreAlone(init);
      var none: seq<string>, last := [], ps[|ps| - 1];
      assert none + [last] == [last];
      assert Singles(ps) == Singles(init) + [[last]];
    }
  }

  lemma {:induction false} AloneGroups(ps: seq<string>)
    requires forall i :: 0 <= i < |ps| - 1 ==> EndsSentence(ps[i])
    ensures Groups(ps) == Singles(ps)
  {
    hide EndsSentence;
    if ps != [] {
      var init := ps[..|ps| - 1];
      assert forall i :: 0 <= i < |init| ==> init[i] == ps[i];
      EndedAreAlone(init);
      var none: seq<string>, last := [], ps[|ps| - 1];
      assert none + [last] == [last];
      assert Singles(ps) == Singles(init) + [[last]];
    }
  }

  lemma {:induction false} ParagraphOfOne(p: string)
    ensures Paragraph([p]) == p
  {
    assert [p][1..] == [];
    assert "" + p == p;
    assert Glue(p, EndsHyphen(p), []) == p;
  }

  /** Normalising a page twice is normalising it once. */
  lemma {:induction false} NormalizeIsIdempotent(text: string)
    ensures Normalize(Normalize(text)) == Normalize(text)
  {
    hide Fragment, EndsSentence, Paragraph, PageFragments;
    var ps := Paragraphs(Groups(PageFragments(text)));
    ParagraphsShape(text);
    JoinedParagraphs(ps);
    AloneGroups(ps);
    forall i | 0 <= i < |ps| ensures Paragraph([ps[i]]) == ps[i] {
      ParagraphOfOne(ps[i]);
    }
    assert Paragraphs(Groups(ps)) == ps;
  }

  // ---------- nothing but white space changes ----------

  function InkAll(parts: seq<string>): string
    decreases |parts|
  {
    if parts == [] then "" else Ink(parts[0]) + InkAll(parts[1..])
  }

  lemma {:induction false} InkAllConcat(a: seq<string>, b: seq<string>)
    ensures InkAll(a + b) == InkAll(a) + InkAll(b)
    decreases |a|
  {
    hide Ink;
    if a == [] {
      assert a + b == b;
    } else {
      assert (a + b)[0] == a[0] && (a + b)[1..] == a[1..] + b;
      InkAllConcat(a[1..], b);
    }
  }

  lemma {:induction false} InkJoin(parts: seq<string>, sep: string)
    requires Ink(sep) == ""
    ensures Ink(Join(parts, sep)) == InkAll(parts)
    decreases |parts|
  {
    hide Ink;
    if |parts| == 0 {
      InkOfBlank("");
    } else if |parts| == 1 {
      assert parts[1..] == [];
    } else {
      InkJoin(parts[1..], sep);
      InkConcat(parts[0], sep);
      InkConcat(parts[0] + sep, Join(parts[1..], sep));
    }
  }

  lemma {:induction false} InkFragments(lines: seq<string>)
    ensures InkAll(NonBlank(lines)) == InkAll(lines)
    decreases |lines|
  {
    hide Ink, Trim;
    if lines != [] {
      var init, last := lines[..|lines| - 1], lines[|lines| - 1];
      assert lines == init + [last];
      InkFragments(init);
      InkTrim(last);
      InkOfBlank("");
      InkAllConcat(init, [last]);
      InkAllConcat(NonBlank(init), [Trim(last)]);
      InkAllOfOne(last);
      InkAllOfOne(Trim(last));
    }
  }

  lemma {:induction false} InkAllOfOne(s: string)
    ensures InkAll([s]) == Ink(s)
  {
    assert [s][1..] == [];
  }

  lemma {:induction false} InkGlue(b: string, joinNext: bool, words: seq<string>)
    ensures Ink(Glue(b, joinNext, words)) == Ink(b) + InkAll(words)
    decreases |words|
  {
    hide Ink;
    if words != [] {
      InkSpace();
      InkConcat(b, " ");
      InkConcat(b, words[0]);
      InkConcat(b + " ", words[0]);
      if joinNext {
        InkGlue(b + words[0], false, words[1..]);
      } else {
        InkGlue((if b != "" then b + " " else b) + words[0], EndsHyphen(words[0]), words[1..]);
      }
    }
  }

  lemma {:induction false} InkSpace()
    ensures Ink(" ") == "" && Ink("\n") == "" && Ink("\n\n") == "" && Ink("") == ""
  {
    InkOfBlank(" ");
    InkOfBlank("\n");
    InkOfBlank("\n\n");
  }

  lemma {:induction false} InkParagraphs(groups: seq<seq<string>>)
    ensures InkAll(Paragraphs(groups)) == InkAll(Flat(groups))
    decreases |groups|
  {
    hide Ink, Paragraph;
    if groups != [] {
      var init, last := groups[..|groups| - 1], groups[|groups| - 1];
      InkParagraphs(init);
      ParagraphsAppend(init, last);
      assert groups == init + [last];
      InkAllConcat(Paragraphs(init), [Paragraph(last)]);
      InkAllOfOne(Paragraph(last));
      InkParagraph(last);
      InkAllConcat(Flat(init), last);
    }
  }

  lemma {:induction false} InkParagraph(words: seq<string>)
    ensures Ink(Paragraph(words)) == InkAll(words)
  {
    InkGlue("", false, words);
  }

  /** Every character that is not white space survives, in order, and none is added. */
  lemma {:induction false} NormalizeKeepsInk(text: string)
    ensures Ink(Normalize(text)) == Ink(text)
  {
    hide Ink, Paragraph, NonBlank, Groups, InkAll;
    var lines := Split(text, "\n");
    var words := NonBlank(lines);
    var groups := Groups(words);
    InkSpace();
    InkJoin(lines, "\n");
    InkFragments(lines);
    GroupsShape(words);
    InkParagraphs(groups);
    InkJoin(Paragraphs(groups), "\n\n");
  }
}

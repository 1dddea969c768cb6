/**
  `wrapLabel` (the chart-label wrapper of the About page): a label that fits is
  returned as it is; a longer one is split on single spaces and its words are
  packed greedily onto trimmed lines.
*/
module LabelWrap {
  import opened Text

  /** The default of the `maxLength` parameter. */
  const DefaultMaxLength: int := 16

  /** What `wrapLabel` returns: the label string itself, or an array of lines. */
  datatype Wrapped = Unchanged(text: string) | Lines(lines: seq<string>)

  /** All the words of the groups, in order. */
  function Flatten(gs: seq<seq<string>>): seq<string>
  {
    if gs == [] then [] else gs[0] + Flatten(gs[1..])
  }

  /** The value `currentLine` holds once the words of `g` are on it: each word followed by a space. */
  function LineText(g: seq<string>): string
  {
    if g == [] then "" else LineText(g[..|g| - 1]) + g[|g| - 1] + " "
  }

  /** The line pushed for a group of words: its `currentLine`, trimmed. */
  function LineOf(g: seq<string>): string
  {
    Trim(LineText(g))
  }

  /** The lines pushed for the groups, one per group, in order. */
  function LinesOf(gs: seq<seq<string>>): (lines: seq<string>)
    ensures |lines| == |gs|
    ensures forall i :: 0 <= i < |gs| ==> lines[i] == LineOf(gs[i])
  {
    if gs == [] then [] else LinesOf(gs[..|gs| - 1]) + [LineOf(gs[|gs| - 1])]
  }

  /**
    The `forEach` of `wrapLabel` on groups of words: `line` is the group on the
    current line and `done` the groups already pushed. A word starts a new line
    exactly when the current line is non-empty and the word would push it past
    `maxLength`; at the end the current line is pushed.
  */
  function Pack(words: seq<string>, maxLength: int, line: seq<string>, done: seq<seq<string>>): seq<seq<string>>
    decreases |words|
  {
    if words == [] then done + [line]
    else if |LineText(line) + words[0]| > maxLength && |LineText(line)| > 0 then
      Pack(words[1..], maxLength, [words[0]], done + [line])
    else
      Pack(words[1..], maxLength, line + [words[0]], done)
  }

  /** The groups of words `wrapLabel` puts on its lines. */
  function Groups(labelText: string, maxLength: int): seq<seq<string>>
  {
    Pack(Split(labelText), maxLength, [], [])
  }

  /** `wrapLabel(labelText, maxLength)` as a value. */
  function Wrap(labelText: string, maxLength: int): Wrapped
  {
    if |labelText| <= maxLength then Unchanged(labelText)
    else Lines(LinesOf(Groups(labelText, maxLength)))
  }

  /** The JavaScript `wrapLabel`, step by step. */
  method WrapLabel(labelText: string, maxLength: int) returns (r: Wrapped)
    ensures r == Wrap(labelText, maxLength)
    ensures r.Unchanged? <==> |labelText| <= maxLength
    ensures r.Unchanged? ==> r.text == labelText
  {
    if |labelText| <= maxLength {
      return Unchanged(labelText);
    }
    var words := Split(labelText);
    ghost var groups := Pack(words, maxLength, [], []);
    assert groups == Groups(labelText, maxLength);
    var currentLine := "";
    var lines: seq<string> := [];
    ghost var line: seq<string> := [];
    ghost var done: seq<seq<string>> := [];
    assert words[0..] == words;
    for i := 0 to |words|
      invariant currentLine == LineText(line)
      invariant lines == LinesOf(done)
      invariant Pack(words[i..], maxLength, line, done) == groups
    {
      var word := words[i];
      PackStep(words, i, maxLength, line, done);
      if |currentLine + word| > maxLength && |currentLine| > 0 {
        LinesOfAppend(done, line);
        lines := lines + [Trim(currentLine)];
        done := done + [line];
        currentLine := word + " ";
        line := [word];
        assert [word][..0] == [];
      } else {
        currentLine := currentLine + word + " ";
        assert (line + [word])[..|line|] == line;
        line := line + [word];
      }
    }
    LinesOfAppend(done, line);
    lines := lines + [Trim(currentLine)];
    assert words[|words|..] == [];
    assert lines == LinesOf(groups);
    r := Lines(lines);
  }

  /** One turn of the loop of `wrapLabel`, on groups. */
  lemma PackStep(words: seq<string>, i: nat, maxLength: int, line: seq<string>, done: seq<seq<string>>)
    requires i < |words|
    ensures Pack(words[i..], maxLength, line, done)
         == if |LineText(line) + words[i]| > maxLength && |LineText(line)| > 0
            then Pack(words[i + 1..], maxLength, [words[i]], done + [line])
            else Pack(words[i + 1..], maxLength, line + [words[i]], done)
  {
    assert words[i..][1..] == words[i + 1..];
  }

  lemma LinesOfAppend(gs: seq<seq<string>>, g: seq<string>)
    ensures LinesOf(gs + [g]) == LinesOf(gs) + [LineOf(g)]
  {
    assert (gs + [g])[..|gs|] == gs;
  }

  /**
    The greedy packing, stated on its own: the groups are non-empty and hold the
    words in order, a group of two or more words fits in `maxLength` when joined
    with single spaces, and each group after the first starts with a word that
    did not fit at the end of the group before it.
  */
  predicate Packed(gs: seq<seq<string>>, maxLength: int)
  {
    && (forall i :: 0 <= i < |gs| ==> gs[i] != [])
    && (forall i :: 0 <= i < |gs| && |gs[i]| >= 2 ==> |Join(gs[i])| <= maxLength)
    && (forall i :: 0 <= i < |gs| - 1 ==> |Join(gs[i])| + 1 + |gs[i + 1][0]| > maxLength)
  }

  predicate GreedyPartition(words: seq<string>, gs: seq<seq<string>>, maxLength: int)
  {
    |gs| >= 1 && Flatten(gs) == words && Packed(gs, maxLength)
  }

  lemma {:induction false} LineTextIsJoin(g: seq<string>)
    requires g != []
    ensures LineText(g) == Join(g) + " "
    decreases |g|
  {
    var init := g[..|g| - 1];
    if init != [] {
      LineTextIsJoin(init);
    }
  }

  lemma {:induction false} FlattenAppend(gs: seq<seq<string>>, g: seq<string>)
    ensures Flatten(gs + [g]) == Flatten(gs) + g
    decreases |gs|
  {
    if gs == [] {
      assert [g][1..] == [];
    } else {
      assert (gs + [g])[1..] == gs[1..] + [g];
      FlattenAppend(gs[1..], g);
    }
  }

  /** Starting a new line with a word that did not fit keeps the groups greedily packed. */
  lemma PackedAfterBreak(done: seq<seq<string>>, line: seq<string>, w: string, maxLength: int)
    requires line != [] && Packed(done + [line], maxLength)
    requires |Join(line)| + 1 + |w| > maxLength
    ensures Packed(done + [line] + [[w]], maxLength)
  {
    var gs := done + [line] + [[w]];
    assert forall i :: 0 <= i < |gs| - 1 ==> gs[i] == (done + [line])[i];
  }

  /** Adding a word that fits to the current line keeps the groups greedily packed. */
  lemma PackedAfterExtend(done: seq<seq<string>>, line: seq<string>, w: string, maxLength: int)
    requires line != [] && Packed(done + [line], maxLength)
    requires |Join(line)| + 1 + |w| <= maxLength
    ensures Packed(done + [line + [w]], maxLength)
  {
    var line' := line + [w];
    var gs := done + [line'];
    assert line'[..|line'| - 1] == line;
    assert |Join(line')| <= maxLength;
    assert forall i :: 0 <= i < |gs| - 1 ==> gs[i] == (done + [line])[i];
    assert gs[|gs| - 1][0] == (done + [line])[|gs| - 1][0];
  }

  /** Every step of `Pack` keeps the groups greedily packed. */
  lemma {:induction false} PackIsGreedy(words: seq<string>, maxLength: int, line: seq<string>, done: seq<seq<string>>)
    requires line != []
    requires Packed(done + [line], maxLength)
    ensures GreedyPartition(Flatten(done + [line]) + words, Pack(words, maxLength, line, done), maxLength)
    decreases |words|
  {
    if words == [] {
      return;
    }
    var w := words[0];
    LineTextIsJoin(line);
    FlattenAppend(done, line);
    if |LineText(line) + w| > maxLength && |LineText(line)| > 0 {
      PackedAfterBreak(done, line, w, maxLength);
      FlattenAppend(done + [line], [w]);
      assert Flatten(done + [line] + [[w]]) + words[1..] == Flatten(done + [line]) + words;
      PackIsGreedy(words[1..], maxLength, [w], done + [line]);
    } else {
      PackedAfterExtend(done, line, w, maxLength);
      FlattenAppend(done, line + [w]);
      assert Flatten(done + [line + [w]]) + words[1..] == Flatten(done + [line]) + words;
      PackIsGreedy(words[1..], maxLength, line + [w], done);
    }
  }

  /** Packing a non-empty list of words from an empty line gives a greedy packing of them. */
  lemma PackFromStart(words: seq<string>, maxLength: int)
    requires words != []
    ensures GreedyPartition(words, Pack(words, maxLength, [], []), maxLength)
  {
    PackStep(words, 0, maxLength, [], []);
    assert words[0..] == words;
    assert [] + [words[0]] == [words[0]];
    assert Packed([[words[0]]], maxLength);
    PackIsGreedy(words[1..], maxLength, [words[0]], []);
    assert Flatten([[words[0]]]) == [words[0]] by {
      assert [[words[0]]][1..] == [];
    }
    assert [] + [[words[0]]] == [[words[0]]];
    assert [words[0]] + words[1..] == words;
  }

  /** The groups `wrapLabel` forms are a greedy packing of the label's words. */
  lemma GroupsAreGreedy(labelText: string, maxLength: int)
    ensures GreedyPartition(Split(labelText), Groups(labelText, maxLength), maxLength)
  {
    PackFromStart(Split(labelText), maxLength);
  }

  /** A label too long to fit always yields at least one line, one per group. */
  lemma WrapYieldsLines(labelText: string, maxLength: int)
    requires |labelText| > maxLength
    ensures Wrap(labelText, maxLength).Lines?
    ensures |Wrap(labelText, maxLength).lines| == |Groups(labelText, maxLength)| >= 1
  {
    GroupsAreGreedy(labelText, maxLength);
  }

  /** Dropping the trailing space `currentLine` carries never lengthens the trimmed line. */
  lemma TrimPaddedLength(x: string)
    ensures |Trim(x + " ")| <= |x|
  {
    var s := x + " ";
    var r := Trim(s);
    var k := LeadingWhitespace(s);
    TrimSpec(s);
    if r != [] && k + |r| == |s| {
      assert r[|r| - 1] == s[|s| - 1];
    }
  }

  /** A string that neither starts nor ends with white space is its own trimmed, padded line. */
  lemma TrimPaddedClean(x: string)
    requires x != [] && !IsWhitespace(x[0]) && !IsWhitespace(x[|x| - 1])
    ensures Trim(x + " ") == x
  {
    var s := x + " ";
    var r := Trim(s);
    var k := LeadingWhitespace(s);
    TrimSpec(s);
    TrimPaddedLength(x);
    assert r == s[..|x|];
  }

  /** Every line of `wrapLabel` that holds two or more words is at most `maxLength` long. */
  lemma LineFits(labelText: string, maxLength: int, i: nat)
    requires |labelText| > maxLength
    requires i < |Groups(labelText, maxLength)| && |Groups(labelText, maxLength)[i]| >= 2
    ensures |Wrap(labelText, maxLength).lines[i]| <= maxLength
  {
    var g := Groups(labelText, maxLength)[i];
    GroupsAreGreedy(labelText, maxLength);
    LineTextIsJoin(g);
    TrimPaddedLength(Join(g));
  }

  /** In a group of two or more words, each word is shorter than the joined group. */
  lemma {:induction false} JoinLongerThanWord(g: seq<string>, j: nat)
    requires |g| >= 2 && j < |g|
    ensures |g[j]| + 1 <= |Join(g)|
    decreases |g|
  {
    var init := g[..|g| - 1];
    if j < |g| - 1 && |init| >= 2 {
      JoinLongerThanWord(init, j);
    }
  }

  /**
    A word at least `maxLength` long is never put on a line with another word, and
    never cut: its line is the word itself, trimmed.
  */
  lemma LongWordAlone(labelText: string, maxLength: int, i: nat, j: nat)
    requires |labelText| > maxLength
    requires i < |Groups(labelText, maxLength)| && j < |Groups(labelText, maxLength)[i]|
    requires |Groups(labelText, maxLength)[i][j]| >= maxLength
    ensures Groups(labelText, maxLength)[i] == [Groups(labelText, maxLength)[i][j]]
    ensures Wrap(labelText, maxLength).lines[i] == Trim(Groups(labelText, maxLength)[i][j] + " ")
  {
    var g := Groups(labelText, maxLength)[i];
    GroupsAreGreedy(labelText, maxLength);
    if |g| >= 2 {
      JoinLongerThanWord(g, j);
      assert false;
    }
    assert j == 0 && g[..0] == [];
    assert LineText(g) == g[0] + " ";
    assert Wrap(labelText, maxLength).lines[i] == LineOf(g);
  }

  /**
    A word of a single-space-separated label: non-empty, free of spaces, and
    neither starting nor ending with white space (other white space, such as a
    non-breaking space, may sit inside it).
  */
  predicate CleanWord(w: string)
  {
    w != [] && ' ' !in w && !IsWhitespace(w[0]) && !IsWhitespace(w[|w| - 1])
  }

  lemma {:induction false} JoinClean(g: seq<string>)
    requires g != []
    requires forall j :: 0 <= j < |g| ==> CleanWord(g[j])
    ensures Join(g) != [] && !IsWhitespace(Join(g)[0]) && !IsWhitespace(Join(g)[|Join(g)| - 1])
    decreases |g|
  {
    if |g| >= 2 {
      JoinClean(g[..|g| - 1]);
    }
  }

  function JoinEach(gs: seq<seq<string>>): seq<string>
  {
    seq(|gs|, i requires 0 <= i < |gs| => Join(gs[i]))
  }

  /** Joining each group and then the joins is joining all the words. */
  lemma {:induction false} JoinFlatten(gs: seq<seq<string>>)
    requires gs != []
    requires forall i :: 0 <= i < |gs| ==> gs[i] != []
    ensures Join(JoinEach(gs)) == Join(Flatten(gs))
    decreases |gs|
  {
    if |gs| == 1 {
      assert gs[1..] == [];
      assert Flatten(gs) == gs[0];
    } else {
      var rest := gs[1..];
      JoinFlatten(rest);
      assert JoinEach(gs) == [Join(gs[0])] + JoinEach(rest);
      JoinAppend([Join(gs[0])], JoinEach(rest));
      assert Flatten(rest) == rest[0] + Flatten(rest[1..]);
      JoinAppend(gs[0], Flatten(rest));
    }
  }

  /** Each word of a group is one of the flattened words. */
  lemma {:induction false} FlattenHas(gs: seq<seq<string>>, i: nat, j: nat)
    requires i < |gs| && j < |gs[i]|
    ensures gs[i][j] in Flatten(gs)
    decreases i
  {
    if i == 0 {
      assert gs[0][j] == (gs[0] + Flatten(gs[1..]))[j];
    } else {
      FlattenHas(gs[1..], i - 1, j);
    }
  }

  /**
    For a label of clean words (see `CleanWord`) separated by single spaces,
    the lines of `wrapLabel` rejoined with single spaces give back the label, and
    splitting that again gives back the words: none is dropped, repeated or moved.
  */
  lemma RoundTrip(words: seq<string>, maxLength: int)
    requires words != []
    requires forall i :: 0 <= i < |words| ==> CleanWord(words[i])
    requires |Join(words)| > maxLength
    ensures Wrap(Join(words), maxLength).Lines?
    ensures Join(Wrap(Join(words), maxLength).lines) == Join(words)
    ensures Split(Join(Wrap(Join(words), maxLength).lines)) == words
  {
    var labelText := Join(words);
    SplitJoin(words);
    GroupsAreGreedy(labelText, maxLength);
    var gs := Groups(labelText, maxLength);
    var lines := Wrap(labelText, maxLength).lines;
    forall i | 0 <= i < |gs| ensures lines[i] == Join(gs[i]) {
      forall j | 0 <= j < |gs[i]| ensures CleanWord(gs[i][j]) {
        FlattenHas(gs, i, j);
      }
      JoinClean(gs[i]);
      LineTextIsJoin(gs[i]);
      TrimPaddedClean(Join(gs[i]));
    }
    assert lines == JoinEach(gs);
    JoinFlatten(gs);
  }

  /** A greedy packing cannot start with a shorter group than another greedy packing of the same words. */
  lemma FirstGroupNotShorter(words: seq<string>, gs: seq<seq<string>>, hs: seq<seq<string>>, maxLength: int)
    requires GreedyPartition(words, gs, maxLength) && GreedyPartition(words, hs, maxLength)
    ensures |gs[0]| >= |hs[0]|
  {
    var g, h := gs[0], hs[0];
    assert words == g + Flatten(gs[1..]) == h + Flatten(hs[1..]);
    if |g| < |h| {
      var k := |g|;
      assert Flatten(gs[1..]) == gs[1] + Flatten(gs[2..]);
      assert gs[1][0] == words[k] == h[k];
      assert words[..k] == g;
      assert h[..k] == words[..k];
      assert h[..k + 1] == g + [words[k]];
      assert Join(h[..k + 1]) == Join(g) + " " + words[k];
      JoinPrefixLength(h, k + 1);
      assert false;
    }
  }

  /** A greedy packing is its first group followed by a greedy packing of the remaining words. */
  lemma GreedyTail(words: seq<string>, gs: seq<seq<string>>, maxLength: int)
    requires GreedyPartition(words, gs, maxLength)
    ensures words == gs[0] + Flatten(gs[1..])
    ensures |gs| == 1 <==> words == gs[0]
    ensures |gs| >= 2 ==> GreedyPartition(words[|gs[0]|..], gs[1..], maxLength)
  {
    if |gs| >= 2 {
      assert Flatten(gs[1..]) == gs[1] + Flatten(gs[2..]);
      assert words[|gs[0]|..] == Flatten(gs[1..]);
      assert forall i :: 0 <= i < |gs| - 1 ==> gs[1..][i] == gs[i + 1];
    } else {
      assert gs[1..] == [];
    }
  }

  /** There is only one greedy packing of a list of words: `Groups` is it. */
  lemma {:induction false} GreedyPartitionUnique(words: seq<string>, gs: seq<seq<string>>, hs: seq<seq<string>>, maxLength: int)
    requires GreedyPartition(words, gs, maxLength) && GreedyPartition(words, hs, maxLength)
    ensures gs == hs
    decreases |gs|
  {
    FirstGroupNotShorter(words, gs, hs, maxLength);
    FirstGroupNotShorter(words, hs, gs, maxLength);
    GreedyTail(words, gs, maxLength);
    GreedyTail(words, hs, maxLength);
    var g := gs[0];
    assert hs[0] == words[..|g|] == g;
    if words != g {
      GreedyPartitionUnique(words[|g|..], gs[1..], hs[1..], maxLength);
      assert gs == [g] + gs[1..] && hs == [g] + hs[1..];
    }
  }

  /** Hence `wrapLabel`'s lines are exactly the lines of any greedy packing of the words. */
  lemma WrapIsTheGreedyPacking(labelText: string, maxLength: int, gs: seq<seq<string>>)
    requires |labelText| > maxLength
    requires GreedyPartition(Split(labelText), gs, maxLength)
    ensures Wrap(labelText, maxLength) == Lines(LinesOf(gs))
  {
    GroupsAreGreedy(labelText, maxLength);
    GreedyPartitionUnique(Split(labelText), Groups(labelText, maxLength), gs, maxLength);
  }

  /** The skill labels of the About page's chart, each passed through `wrapLabel`. */
  const ChartLabels: seq<string> :=
    ["JavaScript", "Python", "SQL", "React", "Node.js", "Tailwind CSS", "Data Viz", "Cloud (AWS)"]

  function WrappedChartLabels(): (r: seq<Wrapped>)
    ensures |r| == |ChartLabels|
    ensures forall i :: 0 <= i < |r| ==> r[i] == Unchanged(ChartLabels[i])
  {
    seq(|ChartLabels|, i requires 0 <= i < |ChartLabels| => Wrap(ChartLabels[i], DefaultMaxLength))
  }

  /** The words of the example label, split on its spaces. */
  lemma ExampleSplit()
    ensures Split("Cloud Computing Services") == ["Cloud", "Computing", "Services"]
  {
    var words := ["Cloud", "Computing", "Services"];
    assert words[..2][..1] == ["Cloud"];
    assert Join(words[..2]) == "Cloud" + " " + "Computing";
    assert Join(words) == "Cloud Computing Services";
    assert ' ' !in "Cloud" && ' ' !in "Computing" && ' ' !in "Services";
    SplitJoin(words);
  }

  /** The greedy packing of the example label: the third word does not fit after the first two. */
  lemma ExampleGroups()
    ensures Wrap("Cloud Computing Services", DefaultMaxLength)
         == Lines(LinesOf([["Cloud", "Computing"], ["Services"]]))
  {
    var words := ["Cloud", "Computing", "Services"];
    ExampleSplit();
    var gs := [["Cloud", "Computing"], ["Services"]];
    assert gs[0][..1] == ["Cloud"];
    assert Join(gs[0]) == "Cloud Computing";
    assert Flatten(gs) == words by {
      assert gs[1..][1..] == [];
    }
    assert Packed(gs, DefaultMaxLength);
    WrapIsTheGreedyPacking("Cloud Computing Services", DefaultMaxLength, gs);
  }

  lemma ExampleLines()
    ensures LinesOf([["Cloud", "Computing"], ["Services"]]) == ["Cloud Computing", "Services"]
  {
    var gs := [["Cloud", "Computing"], ["Services"]];
    assert gs[0][..1] == ["Cloud"];
    assert Join(gs[0]) == "Cloud Computing";
    LineTextIsJoin(gs[0]);
    TrimPaddedClean("Cloud Computing");
    LineTextIsJoin(gs[1]);
    TrimPaddedClean("Services");
  }

  /** A label longer than the default limit, wrapped onto two lines. */
  lemma WrapExample()
    ensures Wrap("Cloud Computing Services", DefaultMaxLength) == Lines(["Cloud Computing", "Services"])
  {
    ExampleGroups();
    ExampleLines();
  }
}

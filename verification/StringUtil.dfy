/** StringUtil::split, and the joining of words that Client::runCommand does before it. */
module StringUtil {
  import opened Options

  predicate DelimFree(s: string, delims: string) { forall c :: c in s ==> c !in delims }
  predicate AllDelims(s: string, delims: string) { forall c :: c in s ==> c in delims }

  /** Length of the delimiter-free run at the front of s. */
  function RunLength(s: string, delims: string): (n: nat)
    ensures n <= |s| && DelimFree(s[..n], delims) && (n < |s| ==> s[n] in delims)
  {
    if s == "" || s[0] in delims then 0
    else
      assert forall n: nat | n <= |s[1..]| :: s[..n + 1] == [s[0]] + s[1..][..n];
      1 + RunLength(s[1..], delims)
  }

  /** The maximal delimiter-free runs of s, in order. */
  function Words(s: string, delims: string): seq<string>
    decreases |s|
  {
    if s == "" then []
    else if s[0] in delims then Words(s[1..], delims)
    else
      var n := RunLength(s, delims);
      [s[..n]] + Words(s[n..], delims)
  }

  /** std::string::find_first_of. */
  method FindFirstOf(s: string, delims: string, from: nat) returns (pos: Option<nat>)
    requires from <= |s|
    ensures pos == var n := RunLength(s[from..], delims); if from + n < |s| then Some(from + n) else None
  {
    var i := from;
    while i < |s| && s[i] !in delims
      invariant from <= i <= |s|
      invariant RunLength(s[from..], delims) == i - from + RunLength(s[i..], delims)
    {
      assert s[i..][1..] == s[i + 1..];
      i := i + 1;
    }
    pos := if i < |s| then Some(i) else None;
  }

  /** What one turn of the loop in split accounts for. */
  lemma SplitStep(s: string, delims: string, first: nat)
    requires first < |s|
    ensures var n := RunLength(s[first..], delims);
            var word := if n > 0 then [s[first..first + n]] else [];
            Words(s[first..], delims) == word + if first + n < |s| then Words(s[first + n + 1..], delims) else []
  {
    var tail := s[first..];
    var n := RunLength(tail, delims);
    assert tail[..n] == s[first..first + n] && tail[n..] == s[first + n..];
    if first + n < |s| {
      assert s[first + n..][1..] == s[first + n + 1..];
      assert s[first + n] in delims;
    } else {
      assert tail[n..] == "";
    }
  }

  method Split(str: string, delims: string) returns (output: seq<string>)
    ensures output == Words(str, delims)
  {
    hide Words, RunLength;
    output := [];
    var first := 0;
    assert str[0..] == str;
    while first < |str|
      invariant 0 <= first <= |str|
      invariant output + Words(str[first..], delims) == Words(str, delims)
    {
      SplitStep(str, delims, first);
      var second := FindFirstOf(str, delims, first);
      if second != Some(first) {
        output := output + [if second.None? then str[first..] else str[first..second.value]];
      }
      if second.None? {
        assert str[first..first + RunLength(str[first..], delims)] == str[first..];
        return;
      }
      first := second.value + 1;
    }
    NoWords(str[first..], delims);
  }

  lemma {:induction false} NoWords(s: string, delims: string)
    ensures Words(s, delims) == [] <==> AllDelims(s, delims)
  {
    if s != "" && s[0] in delims {
      NoWords(s[1..], delims);
      assert s == [s[0]] + s[1..];
    }
  }

  // What the words are, without the algorithm

  function Interleave(gaps: seq<string>, words: seq<string>): string
    requires |gaps| == |words| + 1
  {
    if words == [] then gaps[0] else gaps[0] + words[0] + Interleave(gaps[1..], words[1..])
  }

  /** s is the words separated by stretches of delimiters: at least one delimiter between
      two words, any number before the first and after the last. */
  ghost predicate Separates(s: string, delims: string, words: seq<string>, gaps: seq<string>) {
    && |gaps| == |words| + 1 && s == Interleave(gaps, words)
    && (forall w :: w in words ==> w != "" && DelimFree(w, delims))
    && (forall i :: 0 <= i < |gaps| ==> AllDelims(gaps[i], delims))
    && (forall i :: 1 <= i < |gaps| - 1 ==> gaps[i] != "")
  }

  lemma {:induction false} SkipGap(gap: string, s: string, delims: string)
    requires AllDelims(gap, delims)
    ensures Words(gap + s, delims) == Words(s, delims)
  {
    if gap == "" {
      assert gap + s == s;
    } else {
      SkipGap(gap[1..], s, delims);
      assert (gap + s)[1..] == gap[1..] + s;
    }
  }

  lemma {:induction false} RunOfWord(w: string, tail: string, delims: string)
    requires DelimFree(w, delims) && (tail == "" || tail[0] in delims)
    ensures RunLength(w + tail, delims) == |w|
  {
    if w == "" {
      assert w + tail == tail;
    } else {
      RunOfWord(w[1..], tail, delims);
      assert (w + tail)[1..] == w[1..] + tail;
    }
  }

  lemma TakeWord(w: string, tail: string, delims: string)
    requires w != "" && DelimFree(w, delims) && (tail == "" || tail[0] in delims)
    ensures Words(w + tail, delims) == [w] + Words(tail, delims)
  {
    RunOfWord(w, tail, delims);
    assert (w + tail)[..|w|] == w && (w + tail)[|w|..] == tail;
  }

  lemma {:induction false} SeparatedAreWords(s: string, delims: string, words: seq<string>, gaps: seq<string>)
    requires Separates(s, delims, words, gaps)
    ensures Words(s, delims) == words
    decreases |words|
  {
    if words == [] {
      SkipGap(gaps[0], "", delims);
      assert gaps[0] + "" == s;
    } else {
      var tail := Interleave(gaps[1..], words[1..]);
      assert words[0] in words;
      forall w | w in words[1..] ensures w in words {
      }
      SeparatedAreWords(tail, delims, words[1..], gaps[1..]);
      if words[1..] != [] {
        assert gaps[1] != "" && tail[0] == gaps[1][0];
      }
      SkipGap(gaps[0], words[0] + tail, delims);
      TakeWord(words[0], tail, delims);
      assert gaps[0] + words[0] + tail == gaps[0] + (words[0] + tail);
    }
  }

  lemma LeadingDelim(c: char, s: string, delims: string, words: seq<string>, gaps: seq<string>)
    requires c in delims && Separates(s, delims, words, gaps)
    ensures Separates([c] + s, delims, words, [[c] + gaps[0]] + gaps[1..])
  {
    var gaps' := [[c] + gaps[0]] + gaps[1..];
    assert gaps'[1..] == gaps[1..];
    assert [c] + s == Interleave(gaps', words);
  }

  lemma LeadingWord(w: string, s: string, delims: string, words: seq<string>, gaps: seq<string>)
    requires w != "" && DelimFree(w, delims) && Separates(s, delims, words, gaps)
    requires words != [] ==> gaps[0] != ""
    ensures Separates(w + s, delims, [w] + words, [""] + gaps)
  {
    var words', gaps' := [w] + words, [""] + gaps;
    assert words'[1..] == words && gaps'[1..] == gaps;
    assert w + s == Interleave(gaps', words');
    forall i | 1 <= i < |gaps'| - 1 ensures gaps'[i] != "" {
      assert gaps'[i] == gaps[i - 1];
    }
  }

  lemma {:induction false} WordsSeparate(s: string, delims: string) returns (gaps: seq<string>)
    ensures Separates(s, delims, Words(s, delims), gaps)
    ensures s != "" && s[0] in delims ==> gaps[0] != ""
    decreases |s|
  {
    hide Separates;
    if s == "" {
      gaps := NoWordsSeparate(delims);
    } else if s[0] in delims {
      var rest := WordsSeparate(s[1..], delims);
      GapCount(s[1..], delims, Words(s[1..], delims), rest);
      LeadingDelim(s[0], s[1..], delims, Words(s[1..], delims), rest);
      gaps := [[s[0]] + rest[0]] + rest[1..];
      assert s == [s[0]] + s[1..];
    } else {
      var n := RunLength(s, delims);
      var rest := WordsSeparate(s[n..], delims);
      GapCount(s[n..], delims, Words(s[n..], delims), rest);
      LeadingWord(s[..n], s[n..], delims, Words(s[n..], delims), rest);
      gaps := [""] + rest;
      assert s == s[..n] + s[n..];
    }
  }

  lemma NoWordsSeparate(delims: string) returns (gaps: seq<string>)
    ensures Separates("", delims, [], gaps)
  {
    gaps := [""];
  }

  lemma GapCount(s: string, delims: string, words: seq<string>, gaps: seq<string>)
    requires Separates(s, delims, words, gaps)
    ensures |gaps| == |words| + 1
  {
  }

  /** split returns exactly the maximal nonempty delimiter-free runs, in order. */
  lemma WordsIff(s: string, delims: string, words: seq<string>)
    ensures Words(s, delims) == words <==> exists gaps: seq<string> :: Separates(s, delims, words, gaps)
  {
    var own := WordsSeparate(s, delims);
    forall gaps: seq<string> | Separates(s, delims, words, gaps) ensures Words(s, delims) == words {
      SeparatedAreWords(s, delims, words, gaps);
    }
  }

  // Join then split

  /** runCommand: the arguments joined by single spaces. */
  function Join(words: seq<string>): string {
    if words == [] then "" else if |words| == 1 then words[0] else words[0] + " " + Join(words[1..])
  }

  lemma {:induction false} JoinAppend(words: seq<string>, w: string)
    ensures Join(words + [w]) == Join(words) + (if words == [] then "" else " ") + w
  {
    if words == [] {
      assert words + [w] == [w];
    } else {
      JoinAppend(words[1..], w);
      assert (words + [w])[0] == words[0] && (words + [w])[1..] == words[1..] + [w];
    }
  }

  method RunCommand(argv: seq<string>) returns (command: string)
    ensures command == Join(argv)
  {
    hide Join;
    command := "";
    assert command == Join([]) by { NoArguments(); }
    for i := 0 to |argv|
      invariant command == Join(argv[..i])
    {
      JoinAppend(argv[..i], argv[i]);
      assert argv[..i] + [argv[i]] == argv[..i + 1];
      if i > 0 {
        command := command + " ";
      }
      command := command + argv[i];
    }
    assert argv[..|argv|] == argv;
  }

  lemma NoArguments()
    ensures Join([]) == ""
  {
  }

  lemma {:induction false} JoinSeparates(words: seq<string>) returns (gaps: seq<string>)
    requires words != [] && forall w :: w in words ==> w != "" && ' ' !in w
    ensures Separates(Join(words), " ", words, gaps) && gaps[0] == ""
    decreases |words|
  {
    if |words| == 1 {
      gaps := ["", ""];
      assert Interleave(gaps[1..], words[1..]) == "";
    } else {
      forall w | w in words[1..] ensures w in words {
      }
      var rest := JoinSeparates(words[1..]);
      gaps := ["", " "] + rest[1..];
      var inner := [" "] + rest[1..];
      assert gaps[1..] == inner && inner[1..] == rest[1..];
      assert Interleave(rest, words[1..]) == words[1] + Interleave(rest[1..], words[1..][1..]);
      assert Interleave(inner, words[1..]) == " " + Join(words[1..]);
    }
  }

  /** Joining a command's arguments and splitting the result gives the arguments back
      exactly when every argument is nonempty and free of spaces. */
  lemma JoinSplitIff(words: seq<string>)
    ensures Words(Join(words), " ") == words <==> forall w :: w in words ==> w != "" && ' ' !in w
  {
    if forall w :: w in words ==> w != "" && ' ' !in w {
      if words != [] {
        var gaps := JoinSeparates(words);
        SeparatedAreWords(Join(words), " ", words, gaps);
      }
    }
    var gaps := WordsSeparate(Join(words), " ");
    assert forall w :: w in Words(Join(words), " ") ==> w != "" && DelimFree(w, " ");
  }
}

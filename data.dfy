/**
  Model of src/data.js: the word-truncation helper used for post previews
  and the fixed list of greetings shown in the hero section.

  Strings are sequences of characters; `Split` and `Join` reproduce the
  behaviour of JavaScript's `split(' ')` and `join(' ')` exactly, including
  the empty pieces that consecutive, leading or trailing spaces produce.
*/
module Data {

  /** The separator truncateWords splits and rejoins on. */
  const Space: char := ' '

  /** The marker appended when text is cut. */
  const Ellipsis: string := "[...]"

  /** The limit used when the caller passes none. */
  const DefaultLimit: int := 50

  /** The greetings the hero section picks from, in source order. */
  const Greetings: seq<string> :=
    ["Hej", "Hello", "Hola", "Bonjour", "Ciao", "こんにちは", "안녕하세요", "你好", "नमस्ते", "வணக்கம்"]

  /** True when no piece of `ws` contains the separator. */
  ghost predicate SpaceFree(ws: seq<string>) {
    forall i :: 0 <= i < |ws| ==> Space !in ws[i]
  }

  /**
    `s.split(' ')`: the pieces between successive spaces. There is always at least
    one piece, and no piece holds a space.
  */
  function Split(s: string): (ws: seq<string>)
    ensures |ws| >= 1
    ensures SpaceFree(ws)
  {
    if s == [] then [""]
    else
      var rest := Split(s[1..]);
      if s[0] == Space then [""] + rest
      else [[s[0]] + rest[0]] + rest[1..]
  }

  /** `ws.join(' ')`: the pieces with one space between neighbours. */
  function Join(ws: seq<string>): (s: string)
    ensures |ws| >= 1 ==> ws[0] <= s
    ensures |ws| >= 2 ==> |ws[0]| < |s| && s[|ws[0]|] == Space
    ensures |s| + 1 >= |ws|
  {
    if |ws| == 0 then ""
    else if |ws| == 1 then ws[0]
    else ws[0] + [Space] + Join(ws[1..])
  }

  /** Joining the pieces of a split gives back the text. */
  lemma {:induction false} JoinSplit(s: string)
    ensures Join(Split(s)) == s
  {
    if s != [] {
      var rest := Split(s[1..]);
      JoinSplit(s[1..]);
      if s[0] == Space {
        assert Split(s) == [""] + rest;
        if |rest| == 1 {
          assert Join(Split(s)) == "" + [Space] + rest[0];
        } else {
          assert (([""] + rest)[1..]) == rest;
        }
        assert s == [Space] + s[1..];
      } else {
        assert Split(s) == [[s[0]] + rest[0]] + rest[1..];
        if |rest| == 1 {
          assert Join(Split(s)) == [s[0]] + rest[0];
        } else {
          assert Join(rest) == rest[0] + [Space] + Join(rest[1..]);
          assert ([[s[0]] + rest[0]] + rest[1..])[1..] == rest[1..];
        }
        assert s == [s[0]] + s[1..];
      }
    }
  }

  /** A word without spaces splits into itself alone. */
  lemma {:induction false} SplitWord(w: string)
    requires Space !in w
    ensures Split(w) == [w]
  {
    if w != [] {
      SplitWord(w[1..]);
      assert [w[0]] + w[1..] == w;
    }
  }

  /** A leading word followed by a space splits off as the first piece. */
  lemma {:induction false} SplitAfterWord(w: string, t: string)
    requires Space !in w
    ensures Split(w + [Space] + t) == [w] + Split(t)
  {
    var s := w + [Space] + t;
    if w == [] {
      assert s[1..] == t;
    } else {
      SplitAfterWord(w[1..], t);
      assert s[1..] == w[1..] + [Space] + t;
      assert [w[0]] + w[1..] == w;
    }
  }

  /** Splitting undoes joining, for pieces that hold no space. */
  lemma {:induction false} SplitJoin(ws: seq<string>)
    requires |ws| >= 1 && SpaceFree(ws)
    ensures Split(Join(ws)) == ws
  {
    if |ws| == 1 {
      SplitWord(ws[0]);
    } else {
      SplitJoin(ws[1..]);
      SplitAfterWord(ws[0], Join(ws[1..]));
    }
  }

  /** Joined text is the first k pieces joined, a space, then the rest joined. */
  lemma {:induction false} JoinAt(ws: seq<string>, k: nat)
    requires 1 <= k < |ws|
    ensures Join(ws) == Join(ws[..k]) + [Space] + Join(ws[k..])
  {
    if k > 1 {
      JoinAt(ws[1..], k - 1);
      assert ws[..k][1..] == ws[1..][..k - 1];
      assert ws[1..][k - 1..] == ws[k..];
    }
  }

  /** Text followed by a space-free tail splits like the text, the tail glued to the last piece. */
  lemma {:induction false} SplitJoinTail(ws: seq<string>, t: string)
    requires |ws| >= 1 && SpaceFree(ws) && Space !in t
    ensures Split(Join(ws) + t) == ws[..|ws| - 1] + [ws[|ws| - 1] + t]
  {
    if |ws| == 1 {
      SplitWord(ws[0] + t);
    } else {
      var n, rest := |ws|, Join(ws[1..]);
      assert Join(ws) + t == ws[0] + [Space] + (rest + t);
      SplitAfterWord(ws[0], rest + t);
      SplitJoinTail(ws[1..], t);
      assert [ws[0]] + ws[1..][..n - 2] == ws[..n - 1];
    }
  }

  /**
    The end index `slice(0, end)` stops at on an array of length n: a
    negative end counts back from the length, and the index is clamped to
    the array.
  */
  function SliceEnd(n: nat, end: int): (e: nat)
    ensures e <= n
    ensures 0 <= end <= n ==> e == end
  {
    if end < 0 then (if n + end < 0 then 0 else n + end)
    else if end < n then end
    else n
  }

  /**
    `truncateWords(text, limit)`: text with more than `limit` pieces is cut
    to its first `limit` pieces and marked with the ellipsis; other text is
    returned as it is. The kept part is always a prefix of the text; for a
    positive limit it holds exactly the first `limit` pieces, for limit 0
    nothing, and for a negative limit all but the last `-limit` pieces, as
    `slice(0, limit)` counts back from the end.
  */
  function TruncateWords(text: string, limit: int): (r: string)
    ensures |Split(text)| <= limit ==> r == text
    ensures |Split(text)| > limit ==>
      |r| >= |Ellipsis| && r[|r| - |Ellipsis|..] == Ellipsis && r[..|r| - |Ellipsis|] <= text
    ensures |Split(text)| > limit >= 1 ==> Split(r[..|r| - |Ellipsis|]) == Split(text)[..limit]
    ensures limit == 0 ==> r == Ellipsis
    ensures limit < 0 && |Split(text)| + limit >= 1 ==>
      |r| >= |Ellipsis| && Split(r[..|r| - |Ellipsis|]) == Split(text)[..|Split(text)| + limit]
    ensures limit < 0 && |Split(text)| + limit <= 0 ==> r == Ellipsis
  {
    var words := Split(text);
    if |words| > limit then
      var kept := words[..SliceEnd(|words|, limit)];
      JoinSplit(text);
      KeptIsPrefix(words, |kept|);
      if |kept| >= 1 then SplitJoin(kept); Join(kept) + Ellipsis
      else Join(kept) + Ellipsis
    else text
  }

  /** The join of the first k pieces is a prefix of the join of all of them. */
  lemma KeptIsPrefix(ws: seq<string>, k: nat)
    requires k <= |ws|
    ensures Join(ws[..k]) <= Join(ws)
  {
    if 1 <= k < |ws| {
      JoinAt(ws, k);
    } else if k == |ws| {
      assert ws[..k] == ws;
    }
  }

  /** `truncateWords(text)` with the limit left out. */
  function TruncateWordsDefault(text: string): (r: string)
    ensures |Split(text)| <= 50 ==> r == text
    ensures |Split(text)| > 50 ==>
      |r| >= |Ellipsis| && r[|r| - |Ellipsis|..] == Ellipsis && Split(r[..|r| - |Ellipsis|]) == Split(text)[..50]
  {
    TruncateWords(text, DefaultLimit)
  }

  /** When text is cut at a positive limit, the cut falls on a space of the original. */
  lemma TruncationCutsAtSpace(text: string, limit: int)
    requires 1 <= limit < |Split(text)|
    ensures var kept := Join(Split(text)[..limit]);
      TruncateWords(text, limit) == kept + Ellipsis && |kept| < |text| && text[|kept|] == Space
  {
    JoinSplit(text);
    JoinAt(Split(text), limit);
  }

  /** For a positive limit, truncateWords leaves text unchanged exactly when it has at most `limit` pieces. */
  lemma UnchangedIff(text: string, limit: int)
    requires limit >= 1
    ensures TruncateWords(text, limit) == text <==> |Split(text)| <= limit
  {
    if |Split(text)| > limit {
      TruncationCutsAtSpace(text, limit);
      var kept := Join(Split(text)[..limit]);
      assert (kept + Ellipsis)[|kept|] != Space;
    }
  }

  /** Truncating twice with the same non-negative limit is the same as truncating once. */
  lemma Idempotent(text: string, limit: int)
    requires limit >= 0
    ensures TruncateWords(TruncateWords(text, limit), limit) == TruncateWords(text, limit)
  {
    var words := Split(text);
    if |words| > limit {
      var kept := words[..limit];
      var r := Join(kept) + Ellipsis;
      assert TruncateWords(text, limit) == r;
      if limit == 0 {
        SplitWord(Ellipsis);
      } else {
        SplitJoinTail(kept, Ellipsis);
        assert |Split(r)| == limit;
      }
    }
  }

  /** The first five words of the documented example, joined. */
  lemma DocExampleHead()
    ensures Join(["This", "is", "a", "long", "sentence"]) == "This is a long sentence"
  {
    var head := ["This", "is", "a", "long", "sentence"];
    assert Join(head[3..]) == "long sentence";
  }

  /** The last four words of the documented example, joined. */
  lemma DocExampleTail()
    ensures Join(["that", "will", "be", "truncated."]) == "that will be truncated."
  {
    var tail := ["that", "will", "be", "truncated."];
    assert Join(tail[2..]) == "be truncated.";
  }

  /** The first five words of the documented example, joined and marked. */
  lemma DocExampleMarked()
    ensures Join(["This", "is", "a", "long", "sentence"]) + Ellipsis == "This is a long sentence[...]"
  {
    DocExampleHead();
  }

  /** The documented example sentence is its nine words joined. */
  lemma DocExampleJoin(text: string)
    requires text == "This is a long sentence that will be truncated."
    ensures Join(["This", "is", "a", "long", "sentence"] + ["that", "will", "be", "truncated."]) == text
  {
    var head := ["This", "is", "a", "long", "sentence"];
    var tail := ["that", "will", "be", "truncated."];
    var ws := head + tail;
    assert "This is a long sentence" + [Space] + "that will be truncated." == text;
    DocExampleHead();
    DocExampleTail();
    JoinAt(ws, 5);
    assert ws[..5] == head && ws[5..] == tail;
  }

  /** The nine pieces of the documented example sentence. */
  lemma DocExampleWords(text: string)
    requires text == "This is a long sentence that will be truncated."
    ensures Split(text) == ["This", "is", "a", "long", "sentence"] + ["that", "will", "be", "truncated."]
  {
    var ws := ["This", "is", "a", "long", "sentence"] + ["that", "will", "be", "truncated."];
    DocExampleJoin(text);
    assert SpaceFree(ws);
    SplitJoin(ws);
  }

  /** The example in truncateWords' own documentation. */
  lemma DocExample(text: string)
    requires text == "This is a long sentence that will be truncated."
    ensures TruncateWords(text, 5) == "This is a long sentence[...]"
  {
    var head := ["This", "is", "a", "long", "sentence"];
    DocExampleWords(text);
    assert Split(text)[..5] == head;
    assert TruncateWords(text, 5) == Join(head) + Ellipsis;
    DocExampleMarked();
  }
}

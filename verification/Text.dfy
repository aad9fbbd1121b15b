/**
 Splitting text at a one-character separator, as `strings.Split` in Go and the newline scan of the
 TypeScript client do. `Split` and `Join` are inverse to each other (`SplitJoin`, `JoinSplit`), so
 every use of `Split` in the parsers below is pinned down by what `Join` prints.
 */
module Text {
  import opened Seqs

  function Split(s: string, sep: char): (parts: seq<string>)
    ensures |parts| >= 1
    decreases s
  {
    if s == "" then
      [""]
    else
      var rest := Split(s[1..], sep);
      if s[0] == sep then [""] + rest else Prepend(s[0], rest)
  }

  /** The parts with a character put before the first one. */
  function Prepend(c: char, parts: seq<string>): (r: seq<string>)
    requires |parts| >= 1
    ensures |r| == |parts|
  {
    [[c] + parts[0]] + parts[1..]
  }

  function Join(parts: seq<string>, sep: char): string
    requires |parts| >= 1
  {
    if |parts| == 1 then parts[0] else parts[0] + [sep] + Join(parts[1..], sep)
  }

  function Last(parts: seq<string>): string
    requires |parts| >= 1
  {
    parts[|parts| - 1]
  }

  function Init(parts: seq<string>): seq<string>
    requires |parts| >= 1
  {
    parts[..|parts| - 1]
  }

  /** JavaScript `indexOf` for a single character: -1 when it does not occur. */
  function IndexOf(s: string, c: char): (i: int)
    ensures -1 <= i < |s|
    ensures i < 0 <==> c !in s
    ensures i >= 0 ==> s[i] == c && c !in s[..i]
  {
    if s == "" then
      -1
    else if s[0] == c then
      0
    else
      var i := IndexOf(s[1..], c);
      assert i >= 0 ==> s[..i + 1] == [s[0]] + s[1..][..i];
      if i < 0 then -1 else i + 1
  }

  /** `strings.TrimRight(line, "\r")`. */
  function TrimCarriageReturns(line: string): (r: string)
    ensures r <= line
    ensures forall i :: |r| <= i < |line| ==> line[i] == '\r'
    ensures r != "" ==> r[|r| - 1] != '\r'
  {
    if line != "" && line[|line| - 1] == '\r' then TrimCarriageReturns(line[..|line| - 1]) else line
  }

  /** No part holds the separator. */
  lemma {:induction false} SplitClean(s: string, sep: char)
    ensures forall i :: 0 <= i < |Split(s, sep)| ==> sep !in Split(s, sep)[i]
    decreases s
  {
    if s == "" {
    } else {
      SplitClean(s[1..], sep);
    }
  }

  /** A character that is not in the text is in no part. */
  lemma {:induction false} SplitKeepsOut(s: string, sep: char, c: char)
    requires c !in s
    ensures forall i :: 0 <= i < |Split(s, sep)| ==> c !in Split(s, sep)[i]
    decreases s
  {
    if s == "" {
    } else {
      SplitKeepsOut(s[1..], sep, c);
    }
  }

  lemma {:induction false} SplitWithout(s: string, sep: char)
    requires sep !in s
    ensures Split(s, sep) == [s]
    decreases s
  {
    if s == "" {
    } else {
      SplitWithout(s[1..], sep);
      assert [s[0]] + s[1..] == s;
    }
  }

  lemma SplitCons(c: char, s: string, sep: char)
    ensures Split([c] + s, sep) == if c == sep then [""] + Split(s, sep) else Prepend(c, Split(s, sep))
  {
    assert ([c] + s)[1..] == s;
  }

  lemma SeparatorInit(parts: seq<string>, tail: seq<string>)
    requires |parts| >= 1
    ensures [""] + (Init(parts) + tail) == Init([""] + parts) + tail
    ensures Last([""] + parts) == Last(parts)
  {
    assert Init([""] + parts) == [""] + Init(parts);
  }

  lemma PrependInit(c: char, parts: seq<string>, tail: seq<string>)
    requires |parts| > 1
    ensures Prepend(c, Init(parts) + tail) == Init(Prepend(c, parts)) + tail
    ensures Last(Prepend(c, parts)) == Last(parts)
  {
    assert (Init(parts) + tail)[1..] == Init(parts)[1..] + tail;
    assert Init(Prepend(c, parts)) == [[c] + parts[0]] + Init(parts)[1..];
  }

  lemma PrependToOnly(c: char, parts: seq<string>, tail: seq<string>)
    requires |parts| == 1 && |tail| >= 1
    ensures Prepend(c, Init(parts) + tail) == Init(Prepend(c, parts)) + Prepend(c, tail)
    ensures Last(Prepend(c, parts)) == [c] + Last(parts)
  {
    assert Init(parts) + tail == tail && Init(Prepend(c, parts)) + Prepend(c, tail) == Prepend(c, tail);
  }

  /** Splitting goes through a concatenation: the last part of the left text is only completed by the right text. */
  lemma {:induction false} SplitAppend(a: string, b: string, sep: char)
    ensures Split(a + b, sep) == Init(Split(a, sep)) + Split(Last(Split(a, sep)) + b, sep)
    decreases a
  {
    if a == "" {
      assert a + b == b;
      assert "" + b == b;
    } else {
      SplitAppend(a[1..], b, sep);
      SplitAppendCons(a[0], a[1..], b, sep);
      assert [a[0]] + a[1..] == a;
    }
  }

  lemma SplitAppendCons(c: char, a: string, b: string, sep: char)
    requires Split(a + b, sep) == Init(Split(a, sep)) + Split(Last(Split(a, sep)) + b, sep)
    ensures Split([c] + a + b, sep) == Init(Split([c] + a, sep)) + Split(Last(Split([c] + a, sep)) + b, sep)
  {
    var parts := Split(a, sep);
    assert [c] + a + b == [c] + (a + b);
    SplitCons(c, a + b, sep);
    SplitCons(c, a, sep);
    assert [c] + Last(parts) + b == [c] + (Last(parts) + b);
    SplitCons(c, Last(parts) + b, sep);
    PartsCons(c, parts, Split(Last(parts) + b, sep), sep);
  }

  lemma PartsCons(c: char, parts: seq<string>, tail: seq<string>, sep: char)
    requires |parts| >= 1 && |tail| >= 1
    ensures c == sep ==> [""] + (Init(parts) + tail) == Init([""] + parts) + tail && Last([""] + parts) == Last(parts)
    ensures |parts| > 1 ==>
              && Prepend(c, Init(parts) + tail) == Init(Prepend(c, parts)) + tail
              && Last(Prepend(c, parts)) == Last(parts)
    ensures |parts| == 1 ==>
              && Prepend(c, Init(parts) + tail) == Init(Prepend(c, parts)) + Prepend(c, tail)
              && Last(Prepend(c, parts)) == [c] + Last(parts)
  {
    SeparatorInit(parts, tail);
    if |parts| == 1 {
      PrependToOnly(c, parts, tail);
    } else {
      PrependInit(c, parts, tail);
    }
  }

  /** A separator between two texts cuts exactly there. */
  lemma SplitAt(a: string, b: string, sep: char)
    ensures Split(a + [sep] + b, sep) == Split(a, sep) + Split(b, sep)
  {
    var parts := Split(a, sep);
    assert a + ([sep] + b) == a + [sep] + b;
    SplitAppend(a, [sep] + b, sep);
    SplitClean(a, sep);
    SplitFirst(Last(parts), b, sep);
    assert Init(parts) + [Last(parts)] == parts;
    assert Init(parts) + ([Last(parts)] + Split(b, sep)) == Init(parts) + [Last(parts)] + Split(b, sep);
  }

  lemma {:induction false} SplitFirst(head: string, b: string, sep: char)
    requires sep !in head
    ensures Split(head + ([sep] + b), sep) == [head] + Split(b, sep)
    decreases head
  {
    if head == "" {
      assert head + ([sep] + b) == [sep] + b;
      SplitCons(sep, b, sep);
    } else {
      SplitFirst(head[1..], b, sep);
      assert head + ([sep] + b) == [head[0]] + (head[1..] + ([sep] + b));
      SplitCons(head[0], head[1..] + ([sep] + b), sep);
      assert [head[0]] + head[1..] == head;
    }
  }

  /** Printing parts and splitting the text gives the parts back. */
  lemma {:induction false} SplitJoin(parts: seq<string>, sep: char)
    requires |parts| >= 1
    requires forall i :: 0 <= i < |parts| ==> sep !in parts[i]
    ensures Split(Join(parts, sep), sep) == parts
  {
    SplitWithout(parts[0], sep);
    if |parts| <= 1 {
    } else {
      SplitJoin(parts[1..], sep);
      SplitAt(parts[0], Join(parts[1..], sep), sep);
    }
  }

  /** Splitting a text and printing the parts gives the text back. */
  lemma {:induction false} JoinSplit(s: string, sep: char)
    ensures Join(Split(s, sep), sep) == s
    decreases s
  {
    if s == "" {
    } else {
      JoinSplit(s[1..], sep);
      var rest := Split(s[1..], sep);
      assert [s[0]] + s[1..] == s;
      if s[0] == sep {
        assert ([""] + rest)[1..] == rest;
      } else {
        assert Prepend(s[0], rest)[1..] == rest[1..];
      }
    }
  }

  /** A part may itself be joined of parts. */
  lemma {:induction false} JoinNested(head: seq<string>, parts: seq<string>, tail: seq<string>, sep: char)
    requires |parts| >= 1 && |tail| >= 1
    ensures Join(head + [Join(parts, sep)] + tail, sep) == Join(head + parts + tail, sep)
    decreases |head|, |parts|
  {
    var outer, flat := head + [Join(parts, sep)] + tail, head + parts + tail;
    if head != [] {
      JoinNested(head[1..], parts, tail, sep);
      assert outer[1..] == head[1..] + [Join(parts, sep)] + tail && flat[1..] == head[1..] + parts + tail;
    } else if |parts| == 1 {
      assert parts == [Join(parts, sep)];
    } else {
      var inner := Join(parts[1..], sep);
      JoinNested([], parts[1..], tail, sep);
      assert outer[1..] == tail && flat[1..] == [] + parts[1..] + tail;
      assert ([] + [inner] + tail)[1..] == tail;
      Regroup(parts[0] + [sep], inner, [sep]);
      Regroup(parts[0] + [sep] + inner, [sep], Join(tail, sep));
      Regroup(parts[0] + [sep], inner + [sep], Join(tail, sep));
    }
  }

  /** A text that holds the separator has more than one part. */
  lemma {:induction false} SplitParts(s: string, sep: char)
    requires sep in s
    ensures |Split(s, sep)| >= 2
    decreases s
  {
    if s[0] == sep {
    } else {
      SplitParts(s[1..], sep);
    }
  }

  /** Dropping trailing carriage returns neither adds nor removes separators. */
  lemma {:induction false} TrimKeepsFieldCount(line: string, sep: char)
    requires sep != '\r'
    ensures |Split(TrimCarriageReturns(line), sep)| == |Split(line, sep)|
    decreases line
  {
    if line != "" && line[|line| - 1] == '\r' {
      var shorter := line[..|line| - 1];
      TrimKeepsFieldCount(shorter, sep);
      SplitAppend(shorter, "\r", sep);
      SplitClean(shorter, sep);
      SplitWithout(Last(Split(shorter, sep)) + "\r", sep);
      assert shorter + "\r" == line;
    }
  }
}

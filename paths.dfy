/** Slash- and dot-separated names: cutting them into pieces and joining them back. */
module Paths {

  /** The pieces of `s` between occurrences of `sep`, the way Go's
      strings.Split cuts them; there is always at least one piece. */
  function Split(s: string, sep: char): (parts: seq<string>)
    ensures |parts| >= 1
    decreases |s|
  {
    if s == [] then [""]
    else
      var rest := Split(s[1..], sep);
      if s[0] == sep then [""] + rest
      else [[s[0]] + rest[0]] + rest[1..]
  }

  /** No piece contains the separator, and joining the pieces gives the text back. */
  lemma {:induction false} JoinSplit(s: string, sep: char)
    ensures forall i :: 0 <= i < |Split(s, sep)| ==> sep !in Split(s, sep)[i]
    ensures Join(Split(s, sep), sep) == s
    decreases |s|
  {
    if s != [] {
      var rest := Split(s[1..], sep);
      JoinSplit(s[1..], sep);
      if s[0] != sep {
        var parts := [[s[0]] + rest[0]] + rest[1..];
        assert parts[1..] == rest[1..];
        if |rest| > 1 {
          assert Join(rest, sep) == rest[0] + [sep] + Join(rest[1..], sep);
        }
      }
    }
  }

  /** The pieces put back together with `sep` between neighbours. */
  function Join(parts: seq<string>, sep: char): string
    requires |parts| >= 1
  {
    if |parts| == 1 then parts[0] else parts[0] + [sep] + Join(parts[1..], sep)
  }

  /** The last piece of a slash-separated name (filepath.Base of a name that
      does not end in a slash): whatever follows the last slash. */
  function Base(s: string): (r: string)
    ensures '/' !in r
    decreases |s|
  {
    if '/' in s then Base(AfterFirst(s, '/')) else s
  }

  /** What follows the first `sep` in `s`; `s` itself when `sep` does not occur. */
  function AfterFirst(s: string, sep: char): (r: string)
    ensures |r| <= |s| && r == s[|s| - |r|..]
    ensures sep !in s ==> r == s
    ensures sep in s ==> |r| < |s|
    ensures forall c :: c in r ==> c in s
  {
    if sep !in s then s
    else if s[0] == sep then s[1..]
    else AfterFirst(s[1..], sep)
  }

  /** Splitting a piece free of `sep` in front of more text extends the first
      piece and leaves the others alone. */
  lemma {:induction false} SplitPrepend(a: string, b: string, sep: char)
    requires sep !in a
    ensures Split(a + b, sep) == [a + Split(b, sep)[0]] + Split(b, sep)[1..]
    decreases |a|
  {
    if a == [] {
      var parts := Split(b, sep);
      assert a + b == b;
      assert a + parts[0] == parts[0];
      assert [parts[0]] + parts[1..] == parts;
    } else {
      assert (a + b)[1..] == a[1..] + b;
      SplitPrepend(a[1..], b, sep);
      assert [a[0]] + (a[1..] + Split(b, sep)[0]) == a + Split(b, sep)[0];
    }
  }

  /** Split undoes Join whenever no piece contains the separator. */
  lemma {:induction false} SplitJoin(parts: seq<string>, sep: char)
    requires |parts| >= 1
    requires forall i :: 0 <= i < |parts| ==> sep !in parts[i]
    ensures Split(Join(parts, sep), sep) == parts
    decreases |parts|
  {
    if |parts| == 1 {
      SplitPrepend(parts[0], [], sep);
      assert parts[0] + [] == parts[0];
    } else {
      var tail := Join(parts[1..], sep);
      SplitJoin(parts[1..], sep);
      assert ([sep] + tail)[1..] == tail;
      assert Split([sep] + tail, sep) == [""] + parts[1..];
      SplitPrepend(parts[0], [sep] + tail, sep);
      assert parts[0] + [sep] + tail == parts[0] + ([sep] + tail);
      assert parts[0] + "" == parts[0];
    }
  }

  /** Cutting at the first `sep` of `a + [sep] + b`, where `a` holds no `sep`,
      yields exactly `b`. */
  lemma {:induction false} AfterFirstCut(a: string, b: string, sep: char)
    requires sep !in a
    ensures AfterFirst(a + [sep] + b, sep) == b
    decreases |a|
  {
    var s := a + [sep] + b;
    assert s[|a|] == sep;
    if a != [] {
      assert s[1..] == a[1..] + [sep] + b;
      AfterFirstCut(a[1..], b, sep);
    } else {
      assert s[1..] == b;
    }
  }

  /** The last piece of joined slash-free pieces is the last of them. */
  lemma {:induction false} BaseJoin(parts: seq<string>)
    requires |parts| >= 1
    requires forall i :: 0 <= i < |parts| ==> '/' !in parts[i]
    ensures Base(Join(parts, '/')) == parts[|parts| - 1]
    decreases |parts|
  {
    if |parts| > 1 {
      var tail := Join(parts[1..], '/');
      var s := parts[0] + ['/'] + tail;
      assert s[|parts[0]|] == '/';
      AfterFirstCut(parts[0], tail, '/');
      BaseJoin(parts[1..]);
    }
  }
}

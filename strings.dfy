/** The JavaScript string operations the code calls: `trim`, `toLowerCase`,
    `split` on one character, and a regular expression made of literal
    alternatives (`/a|b|c/.test(s)`). */
module Strings {
  import opened Seqs

  /** The characters `String.prototype.trim` strips: ECMAScript's WhiteSpace
      (tab, vertical tab, form feed, no-break space, zero-width no-break space and
      the space separators) and LineTerminator characters. */
  predicate IsSpace(c: char) {
    || c == ' ' || c == '\t' || c == '\n' || c == '\r'
    || c == '\U{000B}' || c == '\U{000C}' || c == '\U{00A0}' || c == '\U{FEFF}'
    || c == '\U{1680}' || ('\U{2000}' <= c <= '\U{200A}')
    || c == '\U{2028}' || c == '\U{2029}' || c == '\U{202F}' || c == '\U{205F}'
    || c == '\U{3000}'
  }

  function TrimStart(s: string): (r: string)
    ensures |r| <= |s| && r == s[|s| - |r|..]
    ensures r == [] || !IsSpace(r[0])
    ensures forall k :: 0 <= k < |s| - |r| ==> IsSpace(s[k])
  {
    if |s| > 0 && IsSpace(s[0]) then TrimStart(s[1..]) else s
  }

  function TrimEnd(s: string): (r: string)
    ensures |r| <= |s| && r == s[..|r|]
    ensures r == [] || !IsSpace(r[|r| - 1])
    ensures forall k :: |r| <= k < |s| ==> IsSpace(s[k])
  {
    if |s| > 0 && IsSpace(s[|s| - 1]) then TrimEnd(s[..|s| - 1]) else s
  }

  /** `String.prototype.trim`. */
  function Trim(s: string): (r: string)
  {
    TrimEnd(TrimStart(s))
  }

  /** Trimming leaves a string that neither starts nor ends with white space, is
      a contiguous piece of the input, and is empty exactly for blank input. */
  lemma TrimShape(s: string)
    ensures var r := Trim(s);
      && (r == [] || (!IsSpace(r[0]) && !IsSpace(r[|r| - 1])))
      && (exists i :: 0 <= i <= |s| && r <= s[i..])
      && (r == [] <==> forall k :: 0 <= k < |s| ==> IsSpace(s[k]))
  {
    var t := TrimStart(s);
    var r := TrimEnd(t);
    var i := |s| - |t|;
    assert t == s[i..];
    assert r == t[..|r|];
    assert r <= s[i..];
    if r != [] {
      assert r[0] == t[0];
    }
  }

  /** Trimming twice is trimming once. */
  lemma TrimIdempotent(s: string)
    ensures Trim(Trim(s)) == Trim(s)
  {
    var r := Trim(s);
    TrimShape(s);
    if r != [] {
      assert TrimStart(r) == r;
      assert TrimEnd(r) == r;
    }
  }

  /** ASCII part of `String.prototype.toLowerCase`. */
  function LowerChar(c: char): char {
    if 'A' <= c <= 'Z' then (c as int + 32) as char else c
  }

  function ToLower(s: string): (r: string)
    ensures |r| == |s|
    ensures forall k :: 0 <= k < |s| ==> r[k] == LowerChar(s[k])
  {
    if |s| == 0 then [] else [LowerChar(s[0])] + ToLower(s[1..])
  }

  /** `sub` occurs in `s` as a contiguous piece. */
  predicate Contains(s: string, sub: string) {
    exists i | 0 <= i <= |s| :: sub <= s[i..]
  }

  /** `/p1|p2|...|pn/.test(s)` for literal alternatives: some alternative occurs in `s`. */
  predicate MatchesAny(s: string, alternatives: seq<string>) {
    exists p | p in alternatives :: Contains(s, p)
  }

  /** Adding alternatives can only widen what a pattern accepts. */
  lemma MatchesAnyMonotone(s: string, small: seq<string>, large: seq<string>)
    requires forall p :: p in small ==> p in large
    ensures MatchesAny(s, small) ==> MatchesAny(s, large)
  {
  }

  /** `String.prototype.split(c)` for a one-character separator: the pieces
      between separators, always at least one. */
  function Split(s: string, c: char): (r: seq<string>)
    ensures |r| >= 1
    ensures |r| > 1 <==> c in s
    ensures forall k :: 0 <= k < |r| ==> c !in r[k]
    decreases |s|
  {
    var i := IndexOf(s, c);
    if i == -1 then [s] else [s[..i]] + Split(s[i + 1..], c)
  }

  /** `Array.prototype.join(c)`. */
  function Join(pieces: seq<string>, c: char): string
    requires |pieces| >= 1
  {
    if |pieces| == 1 then pieces[0] else pieces[0] + [c] + Join(pieces[1..], c)
  }

  /** One step of `Join`: the first piece, the separator, the rest joined. */
  lemma JoinStep(first: string, rest: seq<string>, c: char)
    requires |rest| >= 1
    ensures Join([first] + rest, c) == first + [c] + Join(rest, c)
  {
    assert ([first] + rest)[1..] == rest;
  }

  /** Splitting and joining again gives back the original text. */
  lemma {:induction false} JoinSplit(s: string, c: char)
    ensures Join(Split(s, c), c) == s
    decreases |s|
  {
    var i := IndexOf(s, c);
    if i != -1 {
      var rest := Split(s[i + 1..], c);
      JoinSplit(s[i + 1..], c);
      JoinStep(s[..i], rest, c);
      Around(s, i);
    }
  }

  /** Text free of the separator up to a first separator is the first piece. */
  lemma SplitAfter(first: string, c: char, tail: string)
    requires c !in first
    ensures Split(first + [c] + tail, c) == [first] + Split(tail, c)
  {
    var s := first + [c] + tail;
    IndexOfAfter(first, c, tail);
    assert s[..|first|] == first;
    assert s[|first| + 1..] == tail;
  }

  /** Joining separator-free pieces and splitting again gives back the pieces. */
  lemma {:induction false} SplitJoin(pieces: seq<string>, c: char)
    requires |pieces| >= 1
    requires forall k :: 0 <= k < |pieces| ==> c !in pieces[k]
    ensures Split(Join(pieces, c), c) == pieces
  {
    var p := pieces[0];
    if |pieces| == 1 {
      assert IndexOf(p, c) == -1;
    } else {
      SplitAfter(p, c, Join(pieces[1..], c));
      SplitJoin(pieces[1..], c);
    }
  }
}

/** `server/config/cloudinary.js`: the two `cloudinary.config` calls made when
    the module loads, the first from `CLOUDINARY_URL.split('@')[1]`, the second
    from the match of `/cloudinary:\/\/(\w+):(\w+)@(\w+)/`. */
module CloudinaryConfig {
  import opened Wrappers
  import opened Strings

  /** `\w`: ASCII letters, digits and `_`. */
  predicate IsWordChar(c: char) {
    ('a' <= c <= 'z') || ('A' <= c <= 'Z') || ('0' <= c <= '9') || c == '_'
  }

  predicate IsWord(s: string) {
    forall k :: 0 <= k < |s| ==> IsWordChar(s[k])
  }

  /** The length of the longest prefix of word characters: what a greedy `\w*` consumes. */
  function WordRun(s: string): (n: nat)
    ensures n <= |s|
    ensures IsWord(s[..n])
    ensures n < |s| ==> !IsWordChar(s[n])
  {
    if |s| == 0 || !IsWordChar(s[0]) then 0
    else
      var n := 1 + WordRun(s[1..]);
      assert s[..n] == [s[0]] + s[1..][..n - 1];
      n
  }

  /** A word followed by text that does not continue it is consumed exactly. */
  lemma {:induction false} WordRunOf(w: string, rest: string)
    requires IsWord(w) && (rest == [] || !IsWordChar(rest[0]))
    ensures WordRun(w + rest) == |w|
  {
    if |w| > 0 {
      assert (w + rest)[1..] == w[1..] + rest;
      WordRunOf(w[1..], rest);
    } else {
      assert w + rest == rest;
    }
  }

  const SCHEME := "cloudinary://"

  /** The three capture groups. */
  datatype Credentials = Credentials(apiKey: string, apiSecret: string, cloudName: string)

  /** `(\w+)` followed by the separator: the word and what follows the separator.
      `\w+` cannot consume the separator, so the word is the whole word run. */
  function WordThen(s: string, sep: char): (r: Option<(string, string)>)
    ensures r.Some? ==> |r.value.0| > 0 && IsWord(r.value.0) && s == r.value.0 + [sep] + r.value.1
  {
    var n := WordRun(s);
    if n == 0 || n == |s| || s[n] != sep then None
    else
      assert s == s[..n] + [sep] + s[n + 1..];
      Some((s[..n], s[n + 1..]))
  }

  lemma WordThenOf(w: string, sep: char, rest: string)
    requires IsWord(w) && |w| > 0 && !IsWordChar(sep)
    ensures WordThen(w + [sep] + rest, sep) == Some((w, rest))
  {
    var s := w + [sep] + rest;
    assert s == w + ([sep] + rest);
    WordRunOf(w, [sep] + rest);
    assert s[..|w|] == w && s[|w| + 1..] == rest;
  }

  /** A word followed by a non-word character other than the separator does
      not match `(\w+)` and the separator. */
  lemma WordThenStops(w: string, rest: string, sep: char)
    requires IsWord(w) && |rest| > 0 && !IsWordChar(rest[0]) && rest[0] != sep
    ensures WordThen(w + rest, sep).None?
  {
    WordRunOf(w, rest);
    assert (w + rest)[|w|] == rest[0];
  }

  /** An attempt to match the pattern starting at `s[0]`; the last `(\w+)` is greedy. */
  function MatchHere(s: string): (r: Option<Credentials>)
    ensures r.Some? ==> IsWord(r.value.apiKey) && IsWord(r.value.apiSecret) && IsWord(r.value.cloudName)
    ensures r.Some? ==> |r.value.apiKey| > 0 && |r.value.apiSecret| > 0 && |r.value.cloudName| > 0
  {
    if !(SCHEME <= s) then None
    else match WordThen(s[|SCHEME|..], ':')
      case None => None
      case Some((key, afterKey)) =>
        match WordThen(afterKey, '@')
        case None => None
        case Some((secret, afterSecret)) =>
          var n := WordRun(afterSecret);
          if n == 0 then None else Some(Credentials(key, secret, afterSecret[..n]))
  }

  /** `String.prototype.match` of the unanchored pattern: the attempt at the
      leftmost position that succeeds. */
  function Match(s: string, from: nat): Option<Credentials>
    requires from <= |s|
    decreases |s| - from
  {
    var here := MatchHere(s[from..]);
    if here.Some? then here
    else if from == |s| then None
    else Match(s, from + 1)
  }

  /** The position whose attempt `Match` returns: the first success, or the end. */
  function MatchAt(s: string, from: nat): (i: nat)
    requires from <= |s|
    ensures from <= i <= |s|
    decreases |s| - from
  {
    if MatchHere(s[from..]).Some? || from == |s| then from else MatchAt(s, from + 1)
  }

  /** A match is the attempt at the leftmost position where one succeeds. */
  lemma {:induction false} MatchIsLeftmost(s: string, from: nat)
    requires from <= |s|
    ensures MatchHere(s[MatchAt(s, from)..]) == Match(s, from)
    ensures forall j :: from <= j < MatchAt(s, from) ==> MatchHere(s[j..]).None?
    decreases |s| - from
  {
    if MatchHere(s[from..]).None? && from < |s| {
      MatchIsLeftmost(s, from + 1);
      var i := MatchAt(s, from + 1);
      assert MatchAt(s, from) == i && Match(s, from) == Match(s, from + 1);
      forall j | from <= j < i ensures MatchHere(s[j..]).None? {
        if j > from {
          assert from + 1 <= j;
        }
      }
    }
  }

  /** No match means the pattern matches at no position. */
  lemma {:induction false} NoMatchAnywhere(s: string, from: nat)
    requires from <= |s| && Match(s, from).None?
    ensures forall i :: from <= i <= |s| ==> MatchHere(s[i..]).None?
    decreases |s| - from
  {
    assert MatchHere(s[from..]).None?;
    if from < |s| {
      assert Match(s, from + 1).None?;
      NoMatchAnywhere(s, from + 1);
    }
    forall i | from <= i <= |s| ensures MatchHere(s[i..]).None? {
      if i > from {
        assert from + 1 <= i;
      }
    }
  }

  /** The attempt at the start of `cloudinary://k:s@n...` captures k, s and n. */
  lemma MatchHereOf(k: string, sec: string, n: string, rest: string)
    requires IsWord(k) && IsWord(sec) && IsWord(n) && |k| > 0 && |sec| > 0 && |n| > 0
    requires rest == [] || !IsWordChar(rest[0])
    ensures MatchHere(SCHEME + (k + [':'] + (sec + ['@'] + (n + rest)))) == Some(Credentials(k, sec, n))
  {
    var c := n + rest;
    var b := sec + ['@'] + c;
    var a := k + [':'] + b;
    assert (SCHEME + a)[|SCHEME|..] == a;
    WordThenOf(k, ':', b);
    WordThenOf(sec, '@', c);
    WordRunOf(n, rest);
    assert c[..|n|] == n;
  }

  /** A successful attempt at the start is the match. */
  lemma MatchAtStart(s: string)
    requires MatchHere(s).Some?
    ensures Match(s, 0) == MatchHere(s)
  {
    assert s[0..] == s;
  }

  /** Round trip: `cloudinary://k:s@n` for non-empty words k, s and n parses
      back to them, whatever follows that does not continue `n`. */
  lemma RoundTrip(k: string, sec: string, n: string, rest: string)
    requires IsWord(k) && IsWord(sec) && IsWord(n) && |k| > 0 && |sec| > 0 && |n| > 0
    requires rest == [] || !IsWordChar(rest[0])
    ensures Match(SCHEME + k + ":" + sec + "@" + n + rest, 0) == Some(Credentials(k, sec, n))
  {
    var url := SCHEME + k + ":" + sec + "@" + n + rest;
    var c := n + rest;
    var b := sec + ['@'] + c;
    var a := k + [':'] + b;
    calc {
      url;
      == { Assoc(SCHEME + k + ":" + sec + "@", n, rest); }
      SCHEME + k + ":" + sec + "@" + c;
      == { Assoc(SCHEME + k + ":" + sec, "@", c); }
      SCHEME + k + ":" + sec + ("@" + c);
      == { Assoc(SCHEME + k + ":", sec, "@" + c); }
      SCHEME + k + ":" + (sec + ("@" + c));
      == { Assoc(sec, "@", c); }
      SCHEME + k + ":" + b;
      == { Assoc(SCHEME + k, ":", b); }
      SCHEME + k + (":" + b);
      == { Assoc(SCHEME, k, ":" + b); Assoc(k, ":", b); }
      SCHEME + a;
    }
    MatchHereOf(k, sec, n, rest);
    MatchAtStart(url);
  }

  /** Concatenation is associative. */
  lemma Assoc(x: string, y: string, z: string)
    ensures x + y + z == x + (y + z)
  {
  }

  /** `\w+` stops at the first non-word character: `...@my-cloud` gives cloud name `my`. */
  lemma CloudNameStopsAtNonWord(k: string, sec: string, n: string, c: char, tail: string)
    requires IsWord(k) && IsWord(sec) && IsWord(n) && |k| > 0 && |sec| > 0 && |n| > 0
    requires !IsWordChar(c)
    ensures Match(SCHEME + k + ":" + sec + "@" + n + [c] + tail, 0) == Some(Credentials(k, sec, n))
  {
    RoundTrip(k, sec, n, [c] + tail);
    assert SCHEME + k + ":" + sec + "@" + n + [c] + tail == SCHEME + k + ":" + sec + "@" + n + ([c] + tail);
  }

  /** Without the scheme from some position on, nothing matches from there. */
  lemma {:induction false} NoSchemeNoMatch(url: string, from: nat)
    requires from <= |url|
    requires forall i :: from <= i <= |url| ==> !(SCHEME <= url[i..])
    ensures Match(url, from).None?
    decreases |url| - from
  {
    if from < |url| {
      NoSchemeNoMatch(url, from + 1);
    }
  }

  /** The attempt at the start fails when the secret is followed by a
      non-word character other than `@`. */
  lemma SecretStopsAttempt(k: string, sec: string, rest: string)
    requires IsWord(k) && |k| > 0 && IsWord(sec)
    requires |rest| > 0 && !IsWordChar(rest[0]) && rest[0] != '@'
    ensures MatchHere(SCHEME + k + ":" + sec + rest).None?
  {
    var url := SCHEME + k + ":" + sec + rest;
    assert url == SCHEME + (k + [':'] + (sec + rest));
    assert url[|SCHEME|..] == k + [':'] + (sec + rest);
    WordThenOf(k, ':', sec + rest);
    WordThenStops(sec, rest, '@');
  }

  /** A secret cut short by a non-word character other than `@` (such as `-`)
      defeats the match, so no explicit configuration happens. */
  lemma SecretWithNonWordRejected(k: string, sec: string, rest: string)
    requires IsWord(k) && |k| > 0 && IsWord(sec)
    requires |rest| > 0 && !IsWordChar(rest[0]) && rest[0] != '@'
    requires var url := SCHEME + k + ":" + sec + rest;
      forall i :: 1 <= i <= |url| ==> !(SCHEME <= url[i..])
    ensures Match(SCHEME + k + ":" + sec + rest, 0).None?
  {
    var url := SCHEME + k + ":" + sec + rest;
    SecretStopsAttempt(k, sec, rest);
    assert url[0..] == url;
    assert Match(url, 0) == Match(url, 1);
    NoSchemeNoMatch(url, 1);
  }

  /** The options of one `cloudinary.config` call. */
  datatype Options = Options(cloudName: Option<string>, apiKey: Option<string>, apiSecret: Option<string>)

  /** `split('@')[1]`: the piece between the first and second `'@'`, or undefined. */
  function SecondPiece(url: string): (r: Option<string>)
    ensures r.None? <==> '@' !in url
  {
    var pieces := Split(url, '@');
    if |pieces| > 1 then Some(pieces[1]) else None
  }

  /** The credentials lines 19-24 extract: none for an empty variable. */
  function Parsed(url: string): Option<Credentials> {
    if url != "" then Match(url, 0) else None
  }

  /** The `cloudinary.config` calls made for a set variable, in order. */
  function ConfigCalls(url: string): (r: seq<Options>)
    ensures 1 <= |r| <= 2 && r[0] == Options(SecondPiece(url), None, None)
    ensures |r| == 2 <==> Parsed(url).Some?
    ensures |r| == 2 ==> r[1] == Options(Some(Parsed(url).value.cloudName), Some(Parsed(url).value.apiKey),
                                         Some(Parsed(url).value.apiSecret))
  {
    var m := Parsed(url);
    [Options(SecondPiece(url), None, None)]
      + if m.Some? then [Options(Some(m.value.cloudName), Some(m.value.apiKey), Some(m.value.apiSecret))] else []
  }

  /** `split('@')[1]` is the text between the first `'@'` and the next one (or the end). */
  lemma SecondPieceOf(a: string, b: string, rest: string)
    requires '@' !in a && '@' !in b && (rest == [] || rest[0] == '@')
    ensures SecondPiece(a + "@" + b + rest) == Some(b)
  {
    var url := a + "@" + b + rest;
    var tail := b + rest;
    Assoc(a + "@", b, rest);
    assert url == a + ['@'] + tail;
    SplitAfter(a, '@', tail);
    var later := Split(tail, '@');
    assert Split(url, '@') == [a] + later;
    if rest == [] {
      assert tail == b;
      assert Seqs.IndexOf(b, '@') == -1;
      assert later == [b];
    } else {
      assert rest == ['@'] + rest[1..];
      Assoc(b, ['@'], rest[1..]);
      SplitAfter(b, '@', rest[1..]);
      assert later[0] == b;
    }
  }

  lemma NoAtInWord(w: string)
    requires IsWord(w)
    ensures '@' !in w
  {
  }

  /** For a well-formed URL both `cloudinary.config` calls name the same cloud. */
  lemma ConfigsAgree(k: string, sec: string, n: string)
    requires IsWord(k) && IsWord(sec) && IsWord(n) && |k| > 0 && |sec| > 0 && |n| > 0
    ensures var url := SCHEME + k + ":" + sec + "@" + n;
      ConfigCalls(url) == [Options(Some(n), None, None), Options(Some(n), Some(k), Some(sec))]
  {
    var url := SCHEME + k + ":" + sec + "@" + n;
    RoundTrip(k, sec, n, []);
    assert SCHEME + k + ":" + sec + "@" + n + [] == url;
    assert url != "";
    assert Parsed(url) == Some(Credentials(k, sec, n));
    var a := SCHEME + k + ":" + sec;
    assert '@' !in SCHEME;
    NoAtInWord(k);
    NoAtInWord(sec);
    NoAtInWord(n);
    SecondPieceOf(a, n, []);
    assert a + "@" + n + [] == url;
    assert SecondPiece(url) == Some(n);
  }

  class ConfigModule {
    var cloudName: Option<string>
    var apiKey: Option<string>
    var apiSecret: Option<string>
    /** Every `cloudinary.config(...)` call, in order. */
    var configCalls: seq<Options>

    constructor ()
      ensures cloudName.None? && apiKey.None? && apiSecret.None? && configCalls == []
    {
      cloudName, apiKey, apiSecret, configCalls := None, None, None, [];
    }

    /** Loading the module with `CLOUDINARY_URL` = `env`. An unset variable
        makes `.split` throw before anything is configured (`loaded` false).
        An empty one passes line 8 but skips the match. */
    method Load(env: Option<string>) returns (loaded: bool)
      modifies this
      ensures loaded <==> env.Some?
      ensures env.None? ==> configCalls == old(configCalls) && cloudName == old(cloudName)
                            && apiKey == old(apiKey) && apiSecret == old(apiSecret)
      ensures env.Some? ==> configCalls == old(configCalls) + ConfigCalls(env.value)
      ensures env.Some? && Parsed(env.value).Some? ==>
        var m := Parsed(env.value).value;
        cloudName == Some(m.cloudName) && apiKey == Some(m.apiKey) && apiSecret == Some(m.apiSecret)
      ensures env.Some? && Parsed(env.value).None? ==>
        cloudName == old(cloudName) && apiKey == old(apiKey) && apiSecret == old(apiSecret)
    {
      if env.None? {
        return false;
      }
      var cloudinaryUrl := env.value;
      var first := Options(SecondPiece(cloudinaryUrl), None, None);
      configCalls := configCalls + [first];
      var matches := Parsed(cloudinaryUrl);
      if matches.Some? {
        apiKey := Some(matches.value.apiKey);
        apiSecret := Some(matches.value.apiSecret);
        cloudName := Some(matches.value.cloudName);
        configCalls := configCalls + [Options(cloudName, apiKey, apiSecret)];
      }
      loaded := true;
    }
  }
}

/** Value-level helpers shared by every module of the model: optional and
    fallible results, the error codes the validators report, ASCII case
    folding, substring search, decimal rendering and splitting a path string
    on '/'. */
module Common {

  datatype Option<+T> = None | Some(value: T)

  datatype Result<+T, +E> = Ok(value: T) | Err(error: E)

  /** The typed `error_code` values the file and directory validators return. */
  datatype ErrorCode =
    | FileNotFound
    | NotAFile
    | AccessDenied
    | FileTooLarge
    | DirectoryNotFound
    | NotADirectory
    | ValidationError
  {
    /** The code as it appears in a response envelope. */
    function Wire(): string {
      match this
      case FileNotFound => "FILE_NOT_FOUND"
      case NotAFile => "NOT_A_FILE"
      case AccessDenied => "ACCESS_DENIED"
      case FileTooLarge => "FILE_TOO_LARGE"
      case DirectoryNotFound => "DIRECTORY_NOT_FOUND"
      case NotADirectory => "NOT_A_DIRECTORY"
      case ValidationError => "VALIDATION_ERROR"
    }
  }

  /** Distinct codes travel as distinct strings, so a client can tell them apart. */
  lemma WireInjective(a: ErrorCode, b: ErrorCode)
    ensures a.Wire() == b.Wire() ==> a == b
  {
  }

  // ---------------------------------------------------------------------------
  // Case folding (Python's str.lower, restricted to ASCII)

  function LowerChar(c: char): char {
    if 'A' <= c <= 'Z' then (c as int + 32) as char else c
  }

  function Lower(s: string): (r: string)
    ensures |r| == |s|
  {
    seq(|s|, i requires 0 <= i < |s| => LowerChar(s[i]))
  }

  /** Lower-casing twice is lower-casing once. */
  lemma LowerIdempotent(s: string)
    ensures Lower(Lower(s)) == Lower(s)
  {
  }

  lemma LowerAppend(a: string, b: string)
    ensures Lower(a + b) == Lower(a) + Lower(b)
  {
  }

  /** Only upper-case letters change, so '/', '.' and the empty string are kept. */
  lemma LowerKeepsPunctuation(s: string)
    ensures Lower(s) == "" <==> s == ""
    ensures Lower(s) == "." <==> s == "."
    ensures Lower(s) == ".." <==> s == ".."
    ensures forall i :: 0 <= i < |s| ==> (Lower(s)[i] == '/' <==> s[i] == '/')
    ensures forall i :: 0 <= i < |s| ==> (Lower(s)[i] == '.' <==> s[i] == '.')
  {
    if Lower(s) == "." { assert Lower(s)[0] == LowerChar(s[0]); }
    if Lower(s) == ".." { assert Lower(s)[0] == LowerChar(s[0]) && Lower(s)[1] == LowerChar(s[1]); }
  }

  // ---------------------------------------------------------------------------
  // Substring test (Python's `term in text`)

  predicate StartsWith(text: string, prefix: string) {
    |prefix| <= |text| && text[..|prefix|] == prefix
  }

  predicate Contains(text: string, term: string)
    decreases |text|
  {
    StartsWith(text, term) || (text != [] && Contains(text[1..], term))
  }

  /** `term` occurs in `text` starting at offset `k`. */
  predicate OccursAt(text: string, term: string, k: int) {
    0 <= k && k + |term| <= |text| && text[k..k + |term|] == term
  }

  /** `Contains` finds `term` exactly when it occurs at some offset of `text`;
      the empty term occurs in every text. */
  lemma {:induction false} ContainsAt(text: string, term: string)
    ensures Contains(text, term) <==> exists k :: OccursAt(text, term, k)
  {
    if text == [] {
      if Contains(text, term) { assert OccursAt(text, term, 0); }
    } else {
      ContainsAt(text[1..], term);
      if StartsWith(text, term) {
        assert OccursAt(text, term, 0);
      } else if Contains(text[1..], term) {
        var k :| OccursAt(text[1..], term, k);
        assert text[k + 1..k + 1 + |term|] == text[1..][k..k + |term|];
        assert OccursAt(text, term, k + 1);
      }
      if k :| OccursAt(text, term, k) {
        if k > 0 {
          assert text[1..][k - 1..k - 1 + |term|] == text[k..k + |term|];
          assert OccursAt(text[1..], term, k - 1);
        } else {
          assert StartsWith(text, term);
        }
      }
    }
  }

  // ---------------------------------------------------------------------------
  // Decimal text (Python's str() of an int)

  function Digit(d: nat): char
    requires d < 10
  {
    "0123456789"[d]
  }

  function NatText(n: nat): (r: string)
    ensures |r| >= 1
    ensures forall i :: 0 <= i < |r| ==> '0' <= r[i] <= '9'
    decreases n
  {
    if n < 10 then [Digit(n)] else NatText(n / 10) + [Digit(n % 10)]
  }

  function IntText(i: int): string {
    if i < 0 then "-" + NatText(-i) else NatText(i)
  }

  // ---------------------------------------------------------------------------
  // Splitting a path string on '/'

  function Split(s: string): (r: seq<string>)
    ensures |r| >= 1
    decreases |s|
  {
    if s == [] then [""]
    else
      var rest := Split(s[1..]);
      if s[0] == '/' then [""] + rest
      else [[s[0]] + rest[0]] + rest[1..]
  }

  function JoinSlash(parts: seq<string>): string
    decreases |parts|
  {
    if |parts| == 0 then ""
    else if |parts| == 1 then parts[0]
    else parts[0] + "/" + JoinSlash(parts[1..])
  }

  /** Splitting on '/' loses nothing: joining the pieces gives the string back. */
  lemma {:induction false} JoinSplit(s: string)
    ensures JoinSlash(Split(s)) == s
  {
    if s != [] {
      var rest := Split(s[1..]);
      JoinSplit(s[1..]);
      if s[0] == '/' {
        assert Split(s)[1..] == rest;
        assert s == "/" + s[1..];
      } else if |rest| == 1 {
        assert s == [s[0]] + s[1..];
      } else {
        assert Split(s)[1..] == rest[1..];
        assert JoinSlash(rest) == rest[0] + "/" + JoinSlash(rest[1..]);
        assert s == [s[0]] + s[1..];
      }
    }
  }

  /** A '/' between two strings separates their pieces. */
  lemma {:induction false} SplitConcat(a: string, b: string)
    ensures Split(a + "/" + b) == Split(a) + Split(b)
    decreases |a|
  {
    if a == [] {
      assert ("/" + b)[1..] == b;
    } else {
      assert (a + "/" + b)[1..] == a[1..] + "/" + b;
      assert (a + "/" + b)[0] == a[0];
      SplitConcat(a[1..], b);
    }
  }

  /** No piece of a split contains a '/'. */
  lemma {:induction false} SplitNoSlash(s: string)
    ensures forall k :: 0 <= k < |Split(s)| ==> '/' !in Split(s)[k]
    decreases |s|
  {
    if s != [] {
      SplitNoSlash(s[1..]);
    }
  }

  /** Each string lower-cased. */
  function LowerAll(ss: seq<string>): (r: seq<string>)
    ensures |r| == |ss|
    ensures forall k :: 0 <= k < |ss| ==> r[k] == Lower(ss[k])
  {
    seq(|ss|, k requires 0 <= k < |ss| => Lower(ss[k]))
  }

  lemma LowerAllCons(a: string, ss: seq<string>)
    ensures LowerAll([a] + ss) == [Lower(a)] + LowerAll(ss)
  {
  }

  lemma LowerCons(c: char, s: string)
    ensures Lower([c] + s) == [LowerChar(c)] + Lower(s)
  {
  }

  lemma SplitCons(c: char, s: string)
    ensures Split([c] + s) ==
      if c == '/' then [""] + Split(s) else [[c] + Split(s)[0]] + Split(s)[1..]
  {
    assert ([c] + s)[1..] == s;
  }

  /** Splitting commutes with lower-casing, since '/' is not a letter. */
  lemma {:induction false} SplitLower(s: string)
    ensures Split(Lower(s)) == LowerAll(Split(s))
    decreases |s|
  {
    if s != [] {
      var c, tail := s[0], s[1..];
      assert s == [c] + tail;
      LowerCons(c, tail);
      SplitCons(c, tail);
      SplitCons(LowerChar(c), Lower(tail));
      SplitLower(tail);
      var rest := Split(tail);
      if c == '/' {
        LowerAllCons("", rest);
      } else {
        assert rest == [rest[0]] + rest[1..];
        LowerAllCons(rest[0], rest[1..]);
        LowerAllCons([c] + rest[0], rest[1..]);
        LowerCons(c, rest[0]);
      }
    }
  }
}

/** The std::string and std::istringstream operations the parsers are written with.
    A string holds one char per byte. */
module Text {
  import opened Wrappers

  /** `needle` occurs in `s` at position `k`. */
  predicate At(s: string, needle: string, k: nat) {
    k <= |s| && needle <= s[k..]
  }

  /** std::string::find: the first occurrence, None for npos. */
  function Find(s: string, needle: string): (r: Option<nat>)
    ensures r.Some? ==> At(s, needle, r.value) && forall k :: 0 <= k < r.value ==> !At(s, needle, k)
    ensures r.None? ==> forall k: nat :: !At(s, needle, k)
  {
    if needle <= s then
      assert s[0..] == s;
      Some(0)
    else if s == "" then None
    else
      var tail := Find(s[1..], needle);
      assert forall k :: 0 < k <= |s| ==> s[k..] == s[1..][k - 1..];
      assert s[0..] == s;
      assert forall k :: 0 < k ==> At(s, needle, k) == At(s[1..], needle, k - 1);
      if tail.Some? then Some(tail.value + 1) else None
  }

  lemma {:induction false} FindStep(s: string, needle: string)
    ensures needle <= s ==> Find(s, needle) == Some(0)
    ensures !(needle <= s) && s == "" ==> Find(s, needle) == None
    ensures !(needle <= s) && s != "" && Find(s[1..], needle).None? ==> Find(s, needle) == None
    ensures !(needle <= s) && s != "" && Find(s[1..], needle).Some? ==>
      Find(s, needle) == Some(Find(s[1..], needle).value + 1)
  {
  }

  /** Dropping bytes before the first occurrence only moves it. */
  lemma {:induction false} FindDrop(s: string, n: nat, needle: string)
    requires Find(s, needle).Some? && n <= Find(s, needle).value
    ensures n <= |s| && Find(s[n..], needle) == Some(Find(s, needle).value - n)
    decreases n
  {
    hide Find;
    if n == 0 {
      assert s[0..] == s;
    } else {
      FindStep(s, needle);
      FindDrop(s[1..], n - 1, needle);
      assert s[1..][n - 1..] == s[n..];
    }
  }

  /** One differing character rules an occurrence out. */
  lemma {:induction false} Mismatch(s: string, needle: string, k: nat, j: nat)
    requires j < |needle| && (k + j < |s| ==> s[k + j] != needle[j])
    ensures !At(s, needle, k)
  {
    if k + j < |s| {
      assert s[k..][j] == s[k + j];
    }
  }

  /** The search may start behind a prefix that holds no occurrence. */
  lemma {:induction false} FindSkip(s: string, n: nat, needle: string)
    requires n <= |s| && forall k :: 0 <= k < n ==> !At(s, needle, k)
    ensures Find(s[n..], needle).None? ==> Find(s, needle) == None
    ensures Find(s[n..], needle).Some? ==> Find(s, needle) == Some(Find(s[n..], needle).value + n)
    decreases n
  {
    hide Find;
    if n == 0 {
      assert s[0..] == s;
    } else {
      FindStep(s, needle);
      assert s[0..] == s && !At(s, needle, 0);
      forall k | 0 <= k < n - 1 ensures !At(s[1..], needle, k) {
        assert s[1..][k..] == s[k + 1..];
        assert !At(s, needle, k + 1);
      }
      FindSkip(s[1..], n - 1, needle);
      assert s[1..][n - 1..] == s[n..];
    }
  }

  lemma {:induction false} FindBehind(prefix: string, rest: string, needle: string)
    requires (forall k :: 0 <= k < |prefix| ==> !At(prefix + rest, needle, k)) && Find(rest, needle).Some?
    ensures Find(prefix + rest, needle) == Some(Find(rest, needle).value + |prefix|)
  {
    hide Find, At;
    assert (prefix + rest)[|prefix|..] == rest;
    FindSkip(prefix + rest, |prefix|, needle);
  }

  /** A first occurrence does not move when bytes are appended. */
  lemma {:induction false} FindAppend(s: string, more: string, needle: string)
    requires Find(s, needle).Some?
    ensures Find(s + more, needle) == Find(s, needle)
    decreases |s|
  {
    hide Find;
    FindStep(s, needle);
    FindStep(s + more, needle);
    if needle <= s {
      assert needle <= s + more;
    } else {
      FoundFits(s, needle);
      assert (s + more)[..|needle|] == s[..|needle|];
      assert (s + more)[1..] == s[1..] + more;
      FindAppend(s[1..], more, needle);
    }
  }

  lemma {:induction false} FoundFits(s: string, needle: string)
    requires Find(s, needle).Some?
    ensures Find(s, needle).value + |needle| <= |s|
  {
    assert At(s, needle, Find(s, needle).value);
  }

  /** ... nor when bytes after it are cut off. */
  lemma {:induction false} FindCut(s: string, end: nat, needle: string)
    requires Find(s, needle).Some? && Find(s, needle).value + |needle| <= end <= |s|
    ensures Find(s[..end], needle) == Find(s, needle)
    decreases |s|
  {
    hide Find;
    FindStep(s, needle);
    var cut := s[..end];
    FindStep(cut, needle);
    if needle <= s {
      assert cut[..|needle|] == s[..|needle|];
    } else {
      assert needle <= cut ==> needle <= s by { assert cut <= s; }
      assert cut[1..] == s[1..][..end - 1];
      FindCut(s[1..], end - 1, needle);
    }
  }

  /** std::string::find of one character: its first index, |s| for npos. */
  function IndexOf(s: string, c: char): (i: nat)
    ensures i <= |s| && (forall k :: 0 <= k < i ==> s[k] != c) && (i < |s| ==> s[i] == c)
  {
    if s == "" || s[0] == c then 0 else 1 + IndexOf(s[1..], c)
  }

  /** Length of the longest prefix whose characters all satisfy `p`. */
  function Span(s: string, p: char -> bool): (i: nat)
    ensures i <= |s| && (forall k :: 0 <= k < i ==> p(s[k])) && (i < |s| ==> !p(s[i]))
  {
    if s == "" || !p(s[0]) then 0 else 1 + Span(s[1..], p)
  }

  /** std::isspace in the "C" locale. */
  predicate IsSpace(c: char) {
    c == ' ' || c == '\t' || c == '\n' || c == '\r' || c == '\U{0B}' || c == '\U{0C}'
  }

  /** The characters trim() removes. */
  predicate IsTrimmed(c: char) {
    c == ' ' || c == '\t' || c == '\n' || c == '\r'
  }

  function DropRight(s: string, p: char -> bool): (r: string)
    ensures r <= s && (forall k :: |r| <= k < |s| ==> p(s[k])) && (r != "" ==> !p(r[|r| - 1]))
  {
    if s != "" && p(s[|s| - 1]) then DropRight(s[..|s| - 1], p) else s
  }

  /** trim of Connection.cpp. */
  function Trim(s: string): (r: string)
    ensures r != "" ==> !IsTrimmed(r[0]) && !IsTrimmed(r[|r| - 1])
    ensures |r| <= |s|
  {
    var left := s[Span(s, IsTrimmed)..];
    DropRight(left, IsTrimmed)
  }

  lemma {:induction false} TrimIdentity(s: string)
    requires s != "" ==> !IsTrimmed(s[0]) && !IsTrimmed(s[|s| - 1])
    ensures Trim(s) == s
  {
  }

  /** std::getline: the line without its '\n', and what is left in the stream; None at end of input. */
  function GetLine(s: string): (r: Option<(string, string)>)
    ensures r.Some? ==> |r.value.1| < |s|
  {
    if s == "" then None
    else
      var n := IndexOf(s, '\n');
      if n == |s| then Some((s, "")) else Some((s[..n], s[n + 1..]))
  }

  /** Drops one trailing '\r'. */
  function StripCr(line: string): string {
    if line != "" && line[|line| - 1] == '\r' then line[..|line| - 1] else line
  }
}

/** Text helpers that several parts of the bridge share. */
module Text {
  predicate IsSpace(c: char) {
    c == ' ' || ('\t' <= c <= '\r')
  }

  function SkipSpace(s: string): (rest: string)
    ensures |rest| <= |s|
    ensures rest != "" ==> !IsSpace(rest[0])
  {
    if s != "" && IsSpace(s[0]) then SkipSpace(s[1..]) else s
  }

  /** trim(): without the white space at both ends. */
  function Trim(s: string): string
    decreases |s|
  {
    var rest := SkipSpace(s);
    if rest != "" && IsSpace(rest[|rest| - 1]) then Trim(rest[..|rest| - 1]) else rest
  }

  predicate AllSpace(s: string) {
    forall i :: 0 <= i < |s| ==> IsSpace(s[i])
  }

  lemma {:induction false} SkipsSpace(s: string) returns (lead: string)
    ensures AllSpace(lead) && s == lead + SkipSpace(s)
  {
    lead := "";
    if s != "" && IsSpace(s[0]) {
      var more := SkipsSpace(s[1..]);
      lead := [s[0]] + more;
    }
  }

  lemma {:induction false} SkipSpacePast(lead: string, rest: string)
    requires AllSpace(lead) && (rest != "" ==> !IsSpace(rest[0]))
    ensures SkipSpace(lead + rest) == rest
  {
    if lead != "" {
      assert (lead + rest)[1..] == lead[1..] + rest;
      SkipSpacePast(lead[1..], rest);
    } else {
      assert lead + rest == rest;
    }
  }

  lemma {:induction false} TrimsTheEnd(s: string) returns (tail: string)
    requires s != "" ==> !IsSpace(s[0])
    ensures s == Trim(s) + tail && AllSpace(tail)
    ensures Trim(s) != "" ==> !IsSpace(Trim(s)[0]) && !IsSpace(Trim(s)[|Trim(s)| - 1])
    decreases |s|
  {
    tail := "";
    if s != "" && IsSpace(s[|s| - 1]) {
      var last := s[|s| - 1];
      var more := TrimsTheEnd(s[..|s| - 1]);
      assert s == s[..|s| - 1] + [last];
      tail := more + [last];
      assert s == Trim(s) + tail;
    }
  }

  /** trim() takes white space off both ends, and nothing else; none is left there. */
  lemma TrimIsExact(s: string) returns (lead: string, tail: string)
    ensures s == lead + Trim(s) + tail && AllSpace(lead) && AllSpace(tail)
    ensures Trim(s) != "" ==> !IsSpace(Trim(s)[0]) && !IsSpace(Trim(s)[|Trim(s)| - 1])
  {
    lead := SkipsSpace(s);
    var rest := SkipSpace(s);
    assert Trim(s) == Trim(rest);
    tail := TrimsTheEnd(rest);
  }
}

/** Patterns over ROS resource names, and the choice of the best one. */
module NamePatterns {
  import opened Text
  import opened Wrappers

  datatype Kind = Exact | Subtree

  datatype Pattern = Pattern(canonical: string, kind: Kind)

  const WILDCARD := "/*"

  predicate HasWildcard(s: string) {
    |s| >= 2 && s[|s| - 2] == '/' && s[|s| - 1] == '*'
  }

  function FromCanonical(text: string): Pattern {
    if text == "*" || text == WILDCARD then Pattern(WILDCARD, Subtree)
    else Pattern(text, if HasWildcard(text) then Subtree else Exact)
  }

  /** `normalize` stands for the expansion of ROS names, and gives "" for a name that it refuses. */
  function Parse(raw: string, normalize: string -> string): Option<Pattern> {
    var text := Trim(raw);
    if text == "" then None
    else if text == "*" || text == WILDCARD then Some(Pattern(WILDCARD, Subtree))
    else if HasWildcard(text) then
      var prefix := normalize(Trim(text[..|text| - 2]));
      if prefix == "" then None else Some(Pattern(prefix + WILDCARD, Subtree))
    else
      var resource := normalize(text);
      if resource == "" then None else Some(Pattern(resource, Exact))
  }

  /** What a configured text stands for, by its shape once white space is off: everything, the names below a
      stem, or one name. A name that is refused stands for nothing. */
  lemma ParseIsExact(raw: string, normalize: string -> string, stem: string)
    ensures var text, parsed := Trim(raw), Parse(raw, normalize);
            && (text == "" ==> parsed == None)
            && (text == "*" || text == "/*" ==> parsed == Some(Pattern("/*", Subtree)))
            && (text == stem + "/*" && stem != "" ==>
                  var full := normalize(Trim(stem));
                  parsed == if full == "" then None else Some(Pattern(full + "/*", Subtree)))
            && ((forall s: string :: text != s + "/*") && text != "" && text != "*" ==>
                  parsed == if normalize(text) == "" then None else Some(Pattern(normalize(text), Exact)))
  {
    hide Trim;
    var text := Trim(raw);
    if HasWildcard(text) {
      assert text == text[..|text| - 2] + "/*";
    }
    if text == stem + "/*" {
      assert text[..|text| - 2] == stem;
    }
  }

  predicate IsCanonical(p: Pattern) {
    p == FromCanonical(p.canonical)
  }

  /** ROS names have no star in them, so a parsed pattern is a subtree iff its text says so. */
  lemma ParsedIsCanonical(raw: string, normalize: string -> string)
    requires forall s: string :: '*' !in normalize(s)
    ensures Parse(raw, normalize).Some? ==> IsCanonical(Parse(raw, normalize).value)
  {
  }

  predicate Matches(p: Pattern, resource: string)
    requires IsCanonical(p)
  {
    if p.kind.Exact? then resource == p.canonical
    else
      var prefix := p.canonical[..|p.canonical| - 2];
      if prefix == "" then resource != "" && resource[0] == '/'
      else |resource| > |prefix| && prefix <= resource && resource[|prefix|] == '/'
  }

  /** A canonical text is not a star alone, and is a subtree exactly if it ends in one behind a slash. */
  lemma CanonicalIsExact(p: Pattern)
    ensures IsCanonical(p) <==>
              p.canonical != "*" && (p.kind == Subtree <==> exists s: string :: p.canonical == s + "/*")
  {
    var text := p.canonical;
    if HasWildcard(text) {
      assert text == text[..|text| - 2] + "/*";
    }
  }

  /** An exact name matches itself alone, and a subtree what its stem and a slash begin. */
  lemma MatchesExactly(p: Pattern, stem: string, x: string)
    requires IsCanonical(p)
    ensures p.kind == Exact ==> (Matches(p, x) <==> x == p.canonical)
    ensures p.canonical == stem + "/*" ==> (Matches(p, x) <==> exists rest: string :: x == stem + "/" + rest)
  {
    if p.canonical == stem + "/*" {
      assert p.canonical[..|p.canonical| - 1] == stem + "/";
      SubtreeMatches(p, x);
      if stem + "/" <= x {
        assert x == stem + "/" + x[|stem| + 1..];
      }
    }
  }

  /** Everything that p matches, q matches. */
  ghost predicate Narrower(p: Pattern, q: Pattern)
    requires IsCanonical(p) && IsCanonical(q)
  {
    forall x: string :: Matches(p, x) ==> Matches(q, x)
  }

  predicate EndsInSlash(resource: string) {
    resource != "" && resource[|resource| - 1] == '/'
  }

  /** A subtree matches what starts with its text up to the star. */
  lemma SubtreeMatches(p: Pattern, x: string)
    requires IsCanonical(p) && p.kind.Subtree?
    ensures Matches(p, x) <==> p.canonical[..|p.canonical| - 1] <= x
  {
  }

  lemma LongerSubtree(p: Pattern, q: Pattern, resource: string)
    requires IsCanonical(p) && IsCanonical(q) && p.kind.Subtree? && q.kind.Subtree?
    requires Matches(p, resource) && Matches(q, resource) && |q.canonical| <= |p.canonical|
    ensures Narrower(p, q)
  {
  }

  /** Of two patterns that match a resource not ending in a slash, the longer is the narrower. */
  lemma LongerIsNarrower(p: Pattern, q: Pattern, resource: string)
    requires IsCanonical(p) && IsCanonical(q)
    requires Matches(p, resource) && Matches(q, resource) && |q.canonical| < |p.canonical|
    requires !EndsInSlash(resource)
    ensures Narrower(p, q)
  {
  }

  ghost predicate LongestIsNarrowest(resource: string) {
    forall p: Pattern, q: Pattern ::
      IsCanonical(p) && IsCanonical(q) && Matches(p, resource) && Matches(q, resource) && |q.canonical| < |p.canonical|
      ==> Narrower(p, q)
  }

  /** Length measures narrowness for exactly the resources that do not end in a slash. */
  lemma LongestIsNarrowestExactly(resource: string)
    ensures LongestIsNarrowest(resource) <==> !EndsInSlash(resource)
  {
    if EndsInSlash(resource) {
      var p, q := FromCanonical(resource + "*"), FromCanonical(resource);
      var n := |resource|;
      assert IsCanonical(p) && p.kind.Subtree?;
      assert p.canonical[..n] == resource;
      assert q.kind.Exact?;
      SubtreeMatches(p, resource);
      SubtreeMatches(p, resource + "x");
      assert Matches(p, resource + "x") && !Matches(q, resource + "x");
      assert !Narrower(p, q);
    } else {
      forall p: Pattern, q: Pattern |
        && IsCanonical(p) && IsCanonical(q)
        && Matches(p, resource) && Matches(q, resource) && |q.canonical| < |p.canonical|
        ensures Narrower(p, q)
      {
        LongerIsNarrower(p, q, resource);
      }
    }
  }

  /** entries[i] is the first of the longest patterns that match. */
  ghost predicate IsBest(entries: seq<Pattern>, resource: string, i: nat)
    requires forall j :: 0 <= j < |entries| ==> IsCanonical(entries[j])
    requires i < |entries|
  {
    && Matches(entries[i], resource)
    && forall j :: 0 <= j < |entries| && Matches(entries[j], resource) ==>
         |entries[j].canonical| < |entries[i].canonical| || (|entries[j].canonical| == |entries[i].canonical| && i <= j)
  }

  method FindBestMatch(entries: seq<Pattern>, resource: string) returns (best: Option<nat>)
    requires forall j :: 0 <= j < |entries| ==> IsCanonical(entries[j])
    ensures best.None? <==> forall j :: 0 <= j < |entries| ==> !Matches(entries[j], resource)
    ensures best.Some? ==> best.value < |entries| && IsBest(entries, resource, best.value)
  {
    best := None;
    for i := 0 to |entries|
      invariant best.None? ==> forall j :: 0 <= j < i ==> !Matches(entries[j], resource)
      invariant best.Some? ==>
                  && best.value < i && Matches(entries[best.value], resource)
                  && forall j :: 0 <= j < i && Matches(entries[j], resource) ==>
                       || |entries[j].canonical| < |entries[best.value].canonical|
                       || (|entries[j].canonical| == |entries[best.value].canonical| && best.value <= j)
    {
      if !Matches(entries[i], resource) {
        continue;
      }
      if best.Some? && |entries[i].canonical| <= |entries[best.value].canonical| {
        continue;
      }
      best := Some(i);
    }
  }

  /** For any resource, the chosen entry is narrower than another match exactly unless it is a subtree and
      the other is the exact name. */
  lemma BestIsNarrowest(entries: seq<Pattern>, resource: string, i: nat, j: nat)
    requires forall k :: 0 <= k < |entries| ==> IsCanonical(entries[k])
    requires i < |entries| && j < |entries| && IsBest(entries, resource, i) && Matches(entries[j], resource)
    ensures var p, q := entries[i], entries[j];
            Narrower(p, q) <==> !(p.kind.Subtree? && q.kind.Exact?)
  {
    var p, q := entries[i], entries[j];
    if p.kind.Subtree? && q.kind.Subtree? {
      LongerSubtree(p, q, resource);
    } else if p.kind.Subtree? {
      SubtreeMatches(p, resource);
      SubtreeMatches(p, resource + "x");
      assert Matches(p, resource + "x") && !Matches(q, resource + "x");
    }
  }

  /** How that happens: the subtree ties with the exact name and is declared first, or the resource ends in
      a slash and the subtree is one longer. */
  lemma SubtreeBeatsExactName(entries: seq<Pattern>, resource: string, i: nat, j: nat)
    requires forall k :: 0 <= k < |entries| ==> IsCanonical(entries[k])
    requires i < |entries| && j < |entries| && IsBest(entries, resource, i) && Matches(entries[j], resource)
    requires entries[i].kind.Subtree? && entries[j].kind.Exact?
    ensures var p, q := entries[i], entries[j];
            || (|p.canonical| == |q.canonical| && i < j)
            || (|p.canonical| == |q.canonical| + 1 && EndsInSlash(resource))
  {
    SubtreeMatches(entries[i], resource);
  }

  /** Two inputs for which the chosen entry is not the narrowest match. */
  lemma ExactNameIsPassedOver()
    ensures var entries := [FromCanonical("/a/*"), FromCanonical("/a/b")];
            && (forall k :: 0 <= k < |entries| ==> IsCanonical(entries[k]))
            && Matches(entries[1], "/a/b") && IsBest(entries, "/a/b", 0) && !Narrower(entries[0], entries[1])
    ensures var entries := [FromCanonical("/a/"), FromCanonical("/a/*")];
            && (forall k :: 0 <= k < |entries| ==> IsCanonical(entries[k]))
            && Matches(entries[0], "/a/") && IsBest(entries, "/a/", 1) && !Narrower(entries[1], entries[0])
  {
    var tie := [FromCanonical("/a/*"), FromCanonical("/a/b")];
    BestIsNarrowest(tie, "/a/b", 0, 1);
    var slash := [FromCanonical("/a/"), FromCanonical("/a/*")];
    BestIsNarrowest(slash, "/a/", 1, 0);
  }
}

/** definition_lookup: a ROS interface definition and everything it refers to. */
module DefinitionLookup {
  import opened Text
  import opened Wrappers

  // ---------------------------------------------------------------------------------------------
  // Text
  // ---------------------------------------------------------------------------------------------

  /** The text before the first `c`. */
  function UpTo(s: string, c: char): (before: string)
    ensures before <= s && c !in before
    ensures c in s <==> |before| < |s|
    ensures c in s ==> s[|before|] == c
  {
    if s == "" || s[0] == c then "" else [s[0]] + UpTo(s[1..], c)
  }

  /** The text after the first `c`. */
  function After(s: string, c: char): string {
    if c in s then s[|UpTo(s, c)| + 1..] else ""
  }

  lemma {:induction false} SplitAt(before: string, c: char, after: string)
    requires c !in before
    ensures UpTo(before + [c] + after, c) == before && After(before + [c] + after, c) == after
  {
    var s := before + [c] + after;
    if before != "" {
      assert before == [before[0]] + before[1..];
      SplitAt(before[1..], c, after);
      assert s[1..] == before[1..] + [c] + after;
    }
    assert s[|before| + 1..] == after;
  }

  lemma {:induction false} NothingToSplit(s: string, c: char)
    requires c !in s
    ensures UpTo(s, c) == s && After(s, c) == ""
  {
  }

  lemma {:induction false} UpToStops(s: string, c: char, more: string)
    requires c in s
    ensures UpTo(s + more, c) == UpTo(s, c)
  {
    assert (s + more)[0] == s[0];
    if s[0] != c {
      assert s == [s[0]] + s[1..];
      assert (s + more)[1..] == s[1..] + more;
      UpToStops(s[1..], c, more);
    }
  }

  function SkipBlank(s: string): string {
    if s != "" && (s[0] == ' ' || s[0] == '\t') then SkipBlank(s[1..]) else s
  }

  function Word(s: string): (word: string)
    ensures word <= s
  {
    if s == "" || IsSpace(s[0]) then "" else [s[0]] + Word(s[1..])
  }

  // ---------------------------------------------------------------------------------------------
  // Types and dependencies
  // ---------------------------------------------------------------------------------------------

  datatype ParsedType = ParsedType(package: string, kind: string, name: string)

  function Parse(t: string): Option<ParsedType> {
    if '/' !in t || '/' !in After(t, '/') then None
    else
      var package, kind, name := UpTo(t, '/'), UpTo(After(t, '/'), '/'), After(After(t, '/'), '/');
      if package == "" || kind == "" || name == "" || '/' in name || kind !in {"msg", "srv", "action"} then None
      else Some(ParsedType(package, kind, name))
  }

  /** The text of an interface type. */
  predicate IsType(t: string, p: ParsedType) {
    && t == p.package + "/" + p.kind + "/" + p.name
    && p.package != "" && '/' !in p.package
    && p.kind in {"msg", "srv", "action"}
    && p.name != "" && '/' !in p.name
  }

  lemma TypesParse(t: string, p: ParsedType)
    requires IsType(t, p)
    ensures Parse(t) == Some(p)
  {
    var rest := p.kind + ['/'] + p.name;
    assert '/' !in p.kind;
    assert t == p.package + ['/'] + rest;
    SplitAt(p.package, '/', rest);
    assert '/' in t by { assert t[|p.package|] == '/'; }
    SplitAt(p.kind, '/', p.name);
    assert '/' in rest by { assert rest[|p.kind|] == '/'; }
  }

  lemma CutAt(s: string, c: char)
    requires c in s
    ensures s == UpTo(s, c) + [c] + After(s, c)
  {
  }

  lemma ParsedIsType(t: string)
    requires Parse(t).Some?
    ensures IsType(t, Parse(t).value)
  {
    hide UpTo, After;
    var rest := After(t, '/');
    var p := Parse(t).value;
    CutAt(t, '/');
    CutAt(rest, '/');
    assert t == p.package + ['/'] + (p.kind + ['/'] + p.name);
    assert t == p.package + "/" + p.kind + "/" + p.name;
  }

  /** parse() accepts the texts package/kind/Name, and takes them apart again. */
  lemma ParseIsInverse(t: string, p: ParsedType)
    ensures Parse(t) == Some(p) <==> IsType(t, p)
  {
    if IsType(t, p) {
      TypesParse(t, p);
    }
    if Parse(t) == Some(p) {
      ParsedIsType(t);
    }
  }

  /** The full name of a field's type, without its array suffix; nothing for a primitive type. */
  function Normalized(base: string, package: string): Option<string> {
    if '/' !in base then
      if base == "" || base[0] < 'A' || base[0] > 'Z' then None else Some(package + "/msg/" + base)
    else if '/' !in After(base, '/') then Some(UpTo(base, '/') + "/msg/" + After(base, '/'))
    else Some(base)
  }

  /** A message may be named in three ways from its own package and in two from others; all are the same
      dependency. */
  lemma SpellingsAgree(package: string, name: string, other: string)
    requires '/' !in package && '/' !in name
    ensures var full := package + "/msg/" + name;
            && Normalized(package + "/" + name, other) == Some(full)
            && Normalized(full, other) == Some(full)
            && (name != "" && 'A' <= name[0] <= 'Z' ==> Normalized(name, package) == Some(full))
            && (package != "" && name != "" ==> Parse(full) == Some(ParsedType(package, "msg", name)))
  {
    var full := package + "/msg/" + name;
    SplitAt(package, '/', name);
    assert full == package + ['/'] + ("msg/" + name);
    SplitAt(package, '/', "msg/" + name);
    assert "msg/" + name == "msg" + ['/'] + name;
    SplitAt("msg", '/', name);
  }

  /** What one line of a definition depends on. */
  function DependencyOf(line: string, package: string): Option<string> {
    var content := SkipBlank(UpTo(line, '#'));
    if content == "" || "---" <= content then None
    else
      var t := Word(SkipSpace(content));
      var name := Word(SkipSpace(SkipSpace(content)[|t|..]));
      if t == "" || name == "" || '=' in name then None else Normalized(UpTo(t, '['), package)
  }

  // ---------------------------------------------------------------------------------------------
  // What a field is
  // ---------------------------------------------------------------------------------------------

  predicate IsWord(w: string) {
    w != "" && forall i :: 0 <= i < |w| ==> w[i] != '#' && !IsSpace(w[i])
  }

  /** A line that declares a field: white space, a type, white space and a name, and then whatever does not
      go on with the name. */
  predicate IsField(line: string, lead: string, t: string, gap: string, name: string, tail: string) {
    && line == lead + t + gap + name + tail
    && AllSpace(lead)
    && IsWord(t)
    && gap != "" && AllSpace(gap)
    && IsWord(name)
    && (tail == "" || tail[0] == '#' || IsSpace(tail[0]))
  }

  predicate AllBlank(s: string) {
    forall i :: 0 <= i < |s| ==> s[i] in {' ', '\t'}
  }

  predicate IsSeparator(lead: string, t: string) {
    AllBlank(lead) && "---" <= t
  }

  /** `base` is one of the three spellings of the message `d`, seen from `package`. */
  ghost predicate Spells(base: string, package: string, d: string) {
    || (base != "" && 'A' <= base[0] <= 'Z' && '/' !in base && d == package + "/msg/" + base)
    || (exists p: string, n: string :: '/' !in p && '/' !in n && base == p + "/" + n && d == p + "/msg/" + n)
    || (exists p: string, k: string, n: string :: '/' !in p && '/' !in k && base == p + "/" + k + "/" + n && d == base)
  }

  lemma HasSlash(p: string, more: string)
    ensures '/' in p + "/" + more
  {
    assert (p + "/" + more)[|p|] == '/';
  }

  lemma UnqualifiedSpelling(base: string, package: string, d: string)
    requires '/' !in base
    ensures Normalized(base, package) == Some(d) <==> Spells(base, package, d)
  {
    forall p: string, more: string ensures base != p + "/" + more {
      HasSlash(p, more);
    }
    forall p: string, k: string, n: string ensures base != p + "/" + k + "/" + n {
      HasSlash(p + "/" + k, n);
    }
  }

  lemma PackagedSpelling(base: string, package: string, p: string, n: string, d: string)
    requires base == p + "/" + n && '/' !in p && '/' !in n
    ensures Normalized(base, package) == Some(d) <==> d == p + "/msg/" + n
    ensures Spells(base, package, d) <==> d == p + "/msg/" + n
  {
    hide UpTo, After;
    SplitAt(p, '/', n);
    assert base[|p|] == '/';
    forall q: string, more: string | '/' !in q && base == q + "/" + more ensures q == p && more == n {
      assert base == q + ['/'] + more;
      SplitAt(q, '/', more);
    }
    forall q: string, k: string, m: string | '/' !in q ensures base != q + "/" + k + "/" + m {
      assert q + "/" + k + "/" + m == q + "/" + (k + "/" + m);
      assert (k + "/" + m)[|k|] == '/';
    }
  }

  lemma FullSpelling(base: string, package: string, p: string, more: string, d: string)
    requires base == p + "/" + more && '/' !in p && '/' in more
    ensures Normalized(base, package) == Some(d) <==> d == base
    ensures Spells(base, package, d) <==> d == base
  {
    hide UpTo;
    SplitAt(p, '/', more);
    assert base[|p|] == '/';
    var k, n := UpTo(more, '/'), After(more, '/');
    CutAt(more, '/');
    assert '/' !in k;
    assert base == p + "/" + k + "/" + n;
    forall q: string, m: string | '/' !in q && base == q + "/" + m ensures m == more {
      assert base == q + ['/'] + m;
      SplitAt(q, '/', m);
    }
  }

  lemma NormalizedIsExact(base: string, package: string, d: string)
    ensures Normalized(base, package) == Some(d) <==> Spells(base, package, d)
  {
    hide Spells, Normalized, UpTo, After;
    if '/' !in base {
      UnqualifiedSpelling(base, package, d);
    } else {
      var p, more := UpTo(base, '/'), After(base, '/');
      CutAt(base, '/');
      assert '/' !in p && base == p + "/" + more;
      if '/' in more {
        FullSpelling(base, package, p, more, d);
      } else {
        PackagedSpelling(base, package, p, more, d);
      }
    }
  }

  lemma {:induction false} UpToPast(a: string, c: char, b: string)
    requires c !in a
    ensures UpTo(a + b, c) == a + UpTo(b, c)
  {
    if a != "" {
      assert (a + b)[1..] == a[1..] + b;
      UpToPast(a[1..], c, b);
    } else {
      assert a + b == b;
    }
  }

  lemma {:induction false} WordStops(w: string, rest: string)
    requires (forall i :: 0 <= i < |w| ==> !IsSpace(w[i])) && (rest == "" || IsSpace(rest[0]))
    ensures Word(w + rest) == w
  {
    if w != "" {
      assert (w + rest)[1..] == w[1..] + rest;
      WordStops(w[1..], rest);
    } else {
      assert w + rest == rest;
    }
  }

  lemma {:induction false} WordIsMaximal(s: string)
    ensures forall i :: 0 <= i < |Word(s)| ==> !IsSpace(Word(s)[i])
    ensures |Word(s)| < |s| ==> IsSpace(s[|Word(s)|])
  {
    if s != "" && !IsSpace(s[0]) {
      WordIsMaximal(s[1..]);
    }
  }

  lemma {:induction false} BlankIsSpace(s: string)
    ensures SkipSpace(SkipBlank(s)) == SkipSpace(s)
  {
    if s != "" && (s[0] == ' ' || s[0] == '\t') {
      BlankIsSpace(s[1..]);
    }
  }

  lemma {:induction false} SeparatorContent(lead: string, t: string, rest: string)
    requires AllSpace(lead) && IsWord(t) && (rest == "" || IsSpace(rest[0]))
    ensures SkipBlank(lead + t + rest) != ""
    ensures "---" <= SkipBlank(lead + t + rest) <==> IsSeparator(lead, t)
  {
    var s := lead + t + rest;
    if lead == "" {
      assert s == t + rest && !IsSpace(s[0]) && SkipBlank(s) == s;
      if |t| < 3 {
        assert "---"[|t|] == '-';
        assert |t| < |s| ==> IsSpace(s[|t|]);
      } else {
        assert s[..3] == t[..3];
      }
    } else if lead[0] in {' ', '\t'} {
      assert s[1..] == lead[1..] + t + rest;
      SeparatorContent(lead[1..], t, rest);
    } else {
      assert s[0] == lead[0] && SkipBlank(s) == s && "---"[0] == '-';
      assert !AllBlank(lead);
    }
  }

  /** A line that declares a field depends on what its type is a spelling of; not if it declares a constant
      or separates the sections. */
  lemma FieldDependsOnItsType(line: string, lead: string, t: string, gap: string, name: string, tail: string,
                              package: string)
    requires IsField(line, lead, t, gap, name, tail)
    ensures DependencyOf(line, package)
            == if IsSeparator(lead, t) || '=' in name then None else Normalized(UpTo(t, '['), package)
  {
    hide UpTo, IsSeparator, Normalized, SkipBlank, Word, SkipSpace;
    var seen := UpTo(tail, '#');
    var head := lead + t + gap + name;
    UpToPast(head, '#', tail);
    var code := UpTo(line, '#');
    var rest := gap + name + seen;
    assert code == lead + t + rest;
    assert seen == "" || IsSpace(seen[0]);
    SeparatorContent(lead, t, rest);
    BlankIsSpace(code);
    assert code == lead + (t + rest);
    SkipSpacePast(lead, t + rest);
    WordStops(t, rest);
    assert (t + rest)[|t|..] == gap + (name + seen);
    SkipSpacePast(gap, name + seen);
    WordStops(name, seen);
  }

  /** Any other line depends on nothing. */
  lemma OnlyFieldsDepend(line: string, package: string)
    returns (lead: string, t: string, gap: string, name: string, tail: string)
    requires DependencyOf(line, package).Some?
    ensures IsField(line, lead, t, gap, name, tail)
  {
    hide UpTo, Normalized, SkipBlank, Word, SkipSpace;
    var code := UpTo(line, '#');
    BlankIsSpace(code);
    lead := SkipsSpace(code);
    var tokens := SkipSpace(code);
    t := Word(tokens);
    WordIsMaximal(tokens);
    var rest := tokens[|t|..];
    gap := SkipsSpace(rest);
    var more := SkipSpace(rest);
    name := Word(more);
    WordIsMaximal(more);
    tail := more[|name|..] + line[|code|..];
    assert tokens == t + rest && more == name + more[|name|..];
    assert code == lead + t + gap + name + more[|name|..];
    assert line == code + line[|code|..];
    InCode(code, lead, t, gap + name + more[|name|..]);
    assert code == (lead + t + gap) + name + more[|name|..];
    InCode(code, lead + t + gap, name, more[|name|..]);
  }

  lemma InCode(code: string, before: string, w: string, after: string)
    requires '#' !in code && code == before + w + after
    ensures '#' !in w
  {
    forall i | 0 <= i < |w| ensures w[i] != '#' {
      assert w[i] == code[|before| + i];
    }
  }

  lemma BaseIsExact(t: string, base: string, suffix: string)
    requires t == base + suffix && '[' !in base && (suffix == "" || suffix[0] == '[')
    ensures UpTo(t, '[') == base
  {
    UpToPast(base, '[', suffix);
  }

  /** `t` names the message `d` with or without an array suffix. */
  ghost predicate NamesMessage(t: string, package: string, d: string) {
    exists base: string, suffix: string ::
      t == base + suffix && '[' !in base && (suffix == "" || suffix[0] == '[') && Spells(base, package, d)
  }

  /** The line declares a field, not a constant, whose type names the message `d`. */
  ghost predicate Declares(line: string, package: string, d: string) {
    exists lead: string, t: string, gap: string, name: string, tail: string ::
      && IsField(line, lead, t, gap, name, tail)
      && !IsSeparator(lead, t) && '=' !in name
      && NamesMessage(t, package, d)
  }

  lemma TypeIsExact(t: string, package: string, d: string)
    ensures Normalized(UpTo(t, '['), package) == Some(d) <==> NamesMessage(t, package, d)
  {
    hide UpTo, Normalized, Spells;
    var base := UpTo(t, '[');
    NormalizedIsExact(base, package, d);
    assert t == base + t[|base|..];
    forall b: string, suffix: string
      | t == b + suffix && '[' !in b && (suffix == "" || suffix[0] == '[') && Spells(b, package, d)
      ensures b == base
    {
      BaseIsExact(t, b, suffix);
    }
  }

  /** What a line depends on, for every text: it depends on a message exactly if it declares a field of it. */
  lemma DependencyIsExact(line: string, package: string, d: string)
    ensures DependencyOf(line, package) == Some(d) <==> Declares(line, package, d)
  {
    hide DependencyOf, Normalized, UpTo, NamesMessage, IsField, IsSeparator;
    if DependencyOf(line, package) == Some(d) {
      var lead, t, gap, name, tail := OnlyFieldsDepend(line, package);
      FieldDependsOnItsType(line, lead, t, gap, name, tail, package);
      TypeIsExact(t, package, d);
    }
    if Declares(line, package, d) {
      var lead: string, t: string, gap: string, name: string, tail: string :|
        && IsField(line, lead, t, gap, name, tail)
        && !IsSeparator(lead, t) && '=' !in name
        && NamesMessage(t, package, d);
      FieldDependsOnItsType(line, lead, t, gap, name, tail, package);
      TypeIsExact(t, package, d);
    }
  }

  lemma CommentsDoNotMatter(line: string, comment: string, package: string)
    ensures DependencyOf(line + "#" + comment, package) == DependencyOf(line, package)
  {
    if '#' in line {
      assert line + "#" + comment == line + ("#" + comment);
      UpToStops(line, '#', "#" + comment);
    } else {
      SplitAt(line, '#', comment);
      NothingToSplit(line, '#');
    }
  }

  function Listed(d: Option<string>): seq<string> {
    if d.Some? then [d.value] else []
  }

  /** The dependencies of a definition, line by line. */
  function Dependencies(body: string, package: string): seq<string>
    decreases |body|
  {
    if body == "" then []
    else Listed(DependencyOf(UpTo(body, '\n'), package)) + Dependencies(After(body, '\n'), package)
  }

  lemma FirstLine(body: string, package: string)
    requires body != ""
    ensures Dependencies(body, package)
            == Listed(DependencyOf(UpTo(body, '\n'), package)) + Dependencies(After(body, '\n'), package)
  {
  }

  /** The sections of a definition contribute one after the other. */
  lemma {:induction false} SectionsAddUp(a: string, b: string, package: string)
    ensures Dependencies(a + "\n" + b, package) == Dependencies(a, package) + Dependencies(b, package)
    decreases |a|
  {
    hide DependencyOf, Dependencies, UpTo, After;
    var both := a + "\n" + b;
    FirstLine(both, package);
    if '\n' in a {
      assert both == a + ("\n" + b);
      UpToStops(a, '\n', "\n" + b);
      FirstLine(a, package);
      RestOfSections(a, b);
      SectionsAddUp(After(a, '\n'), b, package);
    } else {
      SplitAt(a, '\n', b);
      NothingToSplit(a, '\n');
      SingleLine(a, package);
    }
  }

  lemma RestOfSections(a: string, b: string)
    requires '\n' in a && UpTo(a + "\n" + b, '\n') == UpTo(a, '\n')
    ensures After(a + "\n" + b, '\n') == After(a, '\n') + "\n" + b && |After(a, '\n')| < |a|
  {
  }

  lemma SingleLine(a: string, package: string)
    requires '\n' !in a
    ensures Dependencies(a, package) == Listed(DependencyOf(a, package))
  {
    hide DependencyOf;
    NothingToSplit(a, '\n');
    if a == "" {
      EmptyLine(package);
    }
  }

  lemma EmptyLine(package: string)
    ensures DependencyOf("", package) == None
  {
  }

  /** One turn of the loop of parseDependencies(). */
  method ParseLine(text: string, package: string) returns (dependency: Option<string>)
    ensures dependency == DependencyOf(text, package)
  {
    var line := UpTo(text, '#');
    var content := SkipBlank(line);
    if content == "" || "---" <= content {
      return None;
    }
    var tokens := SkipSpace(content);
    var t := Word(tokens);
    var name := Word(SkipSpace(tokens[|t|..]));
    if t == "" || name == "" {
      return None;
    }
    if '=' in name {
      return None;
    }
    var base := UpTo(t, '[');
    if '/' !in base {
      if base == "" || base[0] < 'A' || base[0] > 'Z' {
        return None;
      }
      return Some(package + "/msg/" + base);
    }
    if '/' !in After(base, '/') {
      return Some(UpTo(base, '/') + "/msg/" + After(base, '/'));
    }
    return Some(base);
  }

  lemma LineByLine(found: seq<string>, stream: string, package: string)
    requires stream != ""
    ensures found + Dependencies(stream, package)
            == found + Listed(DependencyOf(UpTo(stream, '\n'), package)) + Dependencies(After(stream, '\n'), package)
  {
    hide DependencyOf, UpTo, After;
    var first, rest := Listed(DependencyOf(UpTo(stream, '\n'), package)), Dependencies(After(stream, '\n'), package);
    assert Dependencies(stream, package) == first + rest;
  }

  method ParseDependencies(body: string, package: string) returns (dependencies: seq<string>)
    ensures dependencies == Dependencies(body, package)
  {
    dependencies := [];
    var stream := body;
    ghost var all := Dependencies(body, package);
    assert [] + all == all;
    while stream != ""
      invariant dependencies + Dependencies(stream, package) == all
      decreases |stream|
    {
      var line := UpTo(stream, '\n');
      LineByLine(dependencies, stream, package);
      stream := After(stream, '\n');
      var dependency := ParseLine(line, package);
      ghost var before := dependencies;
      if dependency.Some? {
        dependencies := dependencies + [dependency.value];
      }
      assert dependencies == before + Listed(dependency);
    }
  }

  // ---------------------------------------------------------------------------------------------
  // The walk
  // ---------------------------------------------------------------------------------------------

  /** The definition files that can be read. */
  type Files = map<string, string>

  predicate Loadable(files: Files, t: string) {
    Parse(t).Some? && t in files
  }

  function DependenciesOf(files: Files, t: string): seq<string>
    requires Loadable(files, t)
  {
    Dependencies(files[t], Parse(t).value.package)
  }

  function SetOf(types: seq<string>): set<string> {
    set t | t in types
  }

  /** collect() of every type in `todo`, in order, when the types in `order` have been seen. */
  function Visit(files: Files, todo: seq<string>, order: seq<string>): (r: Option<seq<string>>)
    ensures r.Some? ==> order <= r.value
    decreases files.Keys - SetOf(order), |todo|
  {
    if todo == [] then Some(order)
    else if todo[0] in order then Visit(files, todo[1..], order)
    else if !Loadable(files, todo[0]) then None
    else
      var t := todo[0];
      assert t in files.Keys - SetOf(order) && t !in files.Keys - SetOf(order + [t]);
      var inner := Visit(files, DependenciesOf(files, t), order + [t]);
      if inner.None? then None
      else
        assert files.Keys - SetOf(inner.value) <= files.Keys - SetOf(order);
        assert t in inner.value;
        Visit(files, todo[1..], inner.value)
  }

  /** The walk below the first type of `todo`, if that is new; and why the walk ends: fewer files remain. */
  function Inside(files: Files, todo: seq<string>, order: seq<string>): (r: Option<seq<string>>)
    requires todo != [] && todo[0] !in order && Loadable(files, todo[0])
    ensures r == Visit(files, DependenciesOf(files, todo[0]), order + [todo[0]])
    ensures files.Keys - SetOf(order + [todo[0]]) < files.Keys - SetOf(order)
    ensures r.Some? ==> todo[0] in r.value && files.Keys - SetOf(r.value) < files.Keys - SetOf(order)
    ensures Visit(files, todo, order) == if r.None? then None else Visit(files, todo[1..], r.value)
  {
    var t := todo[0];
    assert t in files.Keys - SetOf(order) && t !in files.Keys - SetOf(order + [t]);
    var r := Visit(files, DependenciesOf(files, t), order + [t]);
    assert r.Some? ==> order + [t] <= r.value && t in r.value && t !in files.Keys - SetOf(r.value);
    r
  }

  predicate Names(files: Files, t: string, d: string) {
    Loadable(files, t) && d in DependenciesOf(files, t)
  }

  /** From `root` over the types of `path` to `t`, each naming the next. */
  ghost predicate IsPath(files: Files, root: string, path: seq<string>, t: string)
    decreases |path|
  {
    if path == [] then root == t else Names(files, root, path[0]) && IsPath(files, path[0], path[1..], t)
  }

  ghost predicate Reaches(files: Files, root: string, t: string) {
    exists path: seq<string> :: IsPath(files, root, path, t)
  }

  lemma ReachesItself(files: Files, t: string)
    ensures Reaches(files, t, t)
  {
    assert IsPath(files, t, [], t);
  }

  lemma ReachesThrough(files: Files, t: string, d: string, u: string)
    requires Names(files, t, d) && Reaches(files, d, u)
    ensures Reaches(files, t, u)
  {
    var path: seq<string> :| IsPath(files, d, path, u);
    assert ([d] + path)[1..] == path;
    assert IsPath(files, t, [d] + path, u);
  }

  ghost predicate ReachedFrom(files: Files, todo: seq<string>, t: string) {
    exists d: string :: d in todo && Reaches(files, d, t)
  }

  lemma ReachedFromHead(files: Files, todo: seq<string>, u: string)
    requires todo != [] && Reaches(files, todo[0], u)
    ensures ReachedFrom(files, todo, u)
  {
  }

  lemma ReachedFromTail(files: Files, todo: seq<string>, u: string)
    requires todo != [] && ReachedFrom(files, todo[1..], u)
    ensures ReachedFrom(files, todo, u)
  {
  }

  lemma ReachedThrough(files: Files, t: string, u: string)
    requires Loadable(files, t) && ReachedFrom(files, DependenciesOf(files, t), u)
    ensures Reaches(files, t, u)
  {
    var d: string :| d in DependenciesOf(files, t) && Reaches(files, d, u);
    ReachesThrough(files, t, d, u);
  }

  ghost predicate Distinct(types: seq<string>) {
    forall i, j :: 0 <= i < j < |types| ==> types[i] != types[j]
  }

  lemma {:induction false} VisitIsDistinct(files: Files, todo: seq<string>, order: seq<string>)
    requires Distinct(order) && Visit(files, todo, order).Some?
    ensures Distinct(Visit(files, todo, order).value)
    decreases files.Keys - SetOf(order), |todo|
  {
    if todo != [] {
      if todo[0] in order {
        VisitIsDistinct(files, todo[1..], order);
      } else {
        var t := todo[0];
        var inner := Inside(files, todo, order).value;
        VisitIsDistinct(files, DependenciesOf(files, t), order + [t]);
        VisitIsDistinct(files, todo[1..], inner);
      }
    }
  }

  /** Everything that is added can be loaded, and is reached from what was asked for. */
  lemma {:induction false} VisitReaches(files: Files, todo: seq<string>, order: seq<string>, u: string)
    requires Visit(files, todo, order).Some? && u in Visit(files, todo, order).value && u !in order
    ensures Loadable(files, u) && ReachedFrom(files, todo, u)
    decreases files.Keys - SetOf(order), |todo|
  {
    if todo[0] in order {
      VisitReaches(files, todo[1..], order, u);
      ReachedFromTail(files, todo, u);
    } else {
      var t := todo[0];
      var inner := Inside(files, todo, order).value;
      if u == t {
        ReachesItself(files, t);
        ReachedFromHead(files, todo, u);
      } else if u in inner {
        VisitReaches(files, DependenciesOf(files, t), order + [t], u);
        ReachedThrough(files, t, u);
        ReachedFromHead(files, todo, u);
      } else {
        VisitReaches(files, todo[1..], inner, u);
        ReachedFromTail(files, todo, u);
      }
    }
  }

  /** What was asked for is there, and so is everything that an added type depends on. */
  lemma {:induction false} VisitCloses(files: Files, todo: seq<string>, order: seq<string>, u: string)
    requires Visit(files, todo, order).Some?
    ensures var all := Visit(files, todo, order).value;
            && (u in todo ==> u in all)
            && (u in all && u !in order ==>
                  Loadable(files, u) && forall d: string :: d in DependenciesOf(files, u) ==> d in all)
    decreases files.Keys - SetOf(order), |todo|
  {
    if todo != [] {
      if todo[0] in order {
        VisitCloses(files, todo[1..], order, u);
      } else {
        var t := todo[0];
        var inner := Inside(files, todo, order).value;
        VisitCloses(files, todo[1..], inner, u);
        if u == t {
          forall d: string | d in DependenciesOf(files, t) ensures d in inner {
            VisitCloses(files, DependenciesOf(files, t), order + [t], d);
          }
        } else {
          VisitCloses(files, DependenciesOf(files, t), order + [t], u);
        }
      }
    }
  }

  /** A failure means that something cannot be loaded that is reached from what was asked for. */
  lemma {:induction false} VisitFails(files: Files, todo: seq<string>, order: seq<string>) returns (u: string)
    requires Visit(files, todo, order).None?
    ensures ReachedFrom(files, todo, u) && !Loadable(files, u)
    decreases files.Keys - SetOf(order), |todo|
  {
    if todo[0] in order {
      u := VisitFails(files, todo[1..], order);
      ReachedFromTail(files, todo, u);
    } else if !Loadable(files, todo[0]) {
      u := todo[0];
      ReachesItself(files, u);
      ReachedFromHead(files, todo, u);
    } else {
      var t := todo[0];
      var inner := Inside(files, todo, order);
      if inner.None? {
        u := VisitFails(files, DependenciesOf(files, t), order + [t]);
        ReachedThrough(files, t, u);
        ReachedFromHead(files, todo, u);
      } else {
        u := VisitFails(files, todo[1..], inner.value);
        ReachedFromTail(files, todo, u);
      }
    }
  }

  ghost predicate NamedIn(files: Files, types: seq<string>, d: string) {
    exists t: string :: t in types && Names(files, t, d)
  }

  lemma NamedInMore(files: Files, types: seq<string>, more: seq<string>, d: string)
    requires NamedIn(files, types, d) && types <= more
    ensures NamedIn(files, more, d)
  {
    var t: string :| t in types && Names(files, t, d);
    assert t in more;
  }

  /** types[i] comes after a type that names it. */
  ghost predicate NamedAt(files: Files, types: seq<string>, i: nat)
    requires i < |types|
  {
    NamedIn(files, types[..i], types[i])
  }

  lemma NamedAtLonger(files: Files, types: seq<string>, more: seq<string>, i: nat)
    requires i < |types| && NamedAt(files, types, i) && types <= more
    ensures NamedAt(files, more, i)
  {
  }

  ghost predicate AllNamedIn(files: Files, types: seq<string>, todo: seq<string>) {
    forall d: string :: d in todo ==> NamedIn(files, types, d)
  }

  lemma RestIsNamed(files: Files, types: seq<string>, more: seq<string>, todo: seq<string>)
    requires todo != [] && AllNamedIn(files, types, todo) && types <= more
    ensures AllNamedIn(files, more, todo[1..])
  {
    forall d: string | d in todo[1..] ensures NamedIn(files, more, d) {
      NamedInMore(files, types, more, d);
    }
  }

  lemma HeadIsNamed(files: Files, order: seq<string>, todo: seq<string>, all: seq<string>)
    requires todo != [] && AllNamedIn(files, order, todo) && order + [todo[0]] <= all
    ensures NamedAt(files, all, |order|)
  {
    assert all[..|order|] == order && all[|order|] == (order + [todo[0]])[|order|];
  }

  lemma OwnDependenciesAreNamed(files: Files, order: seq<string>, t: string)
    requires Loadable(files, t)
    ensures AllNamedIn(files, order + [t], DependenciesOf(files, t))
  {
    assert t in order + [t];
    assert forall d: string :: d in DependenciesOf(files, t) ==> Names(files, t, d);
  }

  /** Each added type comes after one that names it, if that holds for what was asked for. */
  lemma {:induction false} VisitNames(files: Files, todo: seq<string>, order: seq<string>, i: nat)
    requires AllNamedIn(files, order, todo)
    requires Visit(files, todo, order).Some? && |order| <= i < |Visit(files, todo, order).value|
    ensures NamedAt(files, Visit(files, todo, order).value, i)
    decreases files.Keys - SetOf(order), |todo|
  {
    hide AllNamedIn, NamedAt;
    if todo[0] in order {
      RestIsNamed(files, order, order, todo);
      VisitNames(files, todo[1..], order, i);
    } else {
      var t := todo[0];
      var inner := Inside(files, todo, order).value;
      var all := Visit(files, todo, order).value;
      if i == |order| {
        HeadIsNamed(files, order, todo, all);
      } else if i < |inner| {
        OwnDependenciesAreNamed(files, order, t);
        VisitNames(files, DependenciesOf(files, t), order + [t], i);
        NamedAtLonger(files, inner, all, i);
      } else {
        RestIsNamed(files, order, inner, todo);
        VisitNames(files, todo[1..], inner, i);
      }
    }
  }

  /** Every type of `all` can be loaded, with its dependencies in `all` again. */
  ghost predicate IsClosed(files: Files, all: seq<string>) {
    forall u: string :: u in all ==> DependenciesAreIn(files, all, u)
  }

  ghost predicate DependenciesAreIn(files: Files, all: seq<string>, u: string) {
    Loadable(files, u) && forall d: string :: d in DependenciesOf(files, u) ==> d in all
  }

  lemma {:induction false} ClosedSetsHoldPaths(files: Files, all: seq<string>, root: string, path: seq<string>,
                                               t: string)
    requires root in all && IsPath(files, root, path, t) && IsClosed(files, all)
    ensures t in all
    decreases |path|
  {
    if path != [] {
      ClosedSetsHoldPaths(files, all, path[0], path[1..], t);
    }
  }

  function Lookup(files: Files, root: string): Option<seq<string>> {
    Visit(files, [root], [])
  }

  lemma FoundIsReached(files: Files, root: string, t: string)
    requires Lookup(files, root).Some?
    ensures t in Lookup(files, root).value <==> Reaches(files, root, t)
    ensures Reaches(files, root, t) ==> Loadable(files, t)
  {
    var all := Lookup(files, root).value;
    forall u: string ensures u in all ==> DependenciesAreIn(files, all, u) {
      VisitCloses(files, [root], [], u);
    }
    if t in all {
      VisitReaches(files, [root], [], t);
    }
    if Reaches(files, root, t) {
      VisitCloses(files, [root], [], root);
      var path: seq<string> :| IsPath(files, root, path, t);
      ClosedSetsHoldPaths(files, all, root, path, t);
    }
  }

  /** A lookup fails iff some type that the root reaches cannot be loaded. */
  lemma LookupFailsExactly(files: Files, root: string)
    ensures Lookup(files, root).None? <==> exists t: string :: Reaches(files, root, t) && !Loadable(files, t)
  {
    if Lookup(files, root).None? {
      var t := VisitFails(files, [root], []);
      assert Reaches(files, root, t);
    } else {
      forall t: string ensures Reaches(files, root, t) ==> Loadable(files, t) {
        FoundIsReached(files, root, t);
      }
    }
  }

  lemma FoundIsNamed(files: Files, root: string, i: nat)
    requires Lookup(files, root).Some? && 0 < i < |Lookup(files, root).value|
    ensures NamedAt(files, Lookup(files, root).value, i)
  {
    var inner := Inside(files, [root], []).value;
    assert [] + [root] == [root] && [root][1..] == [];
    assert Lookup(files, root).value == inner;
    OwnDependenciesAreNamed(files, [], root);
    VisitNames(files, DependenciesOf(files, root), [root], i);
  }

  /** The root comes first, no type comes twice, the types are the ones that the root reaches, and each
      other type comes after one that names it. */
  lemma LookupIsTheClosure(files: Files, root: string)
    requires Lookup(files, root).Some?
    ensures var all := Lookup(files, root).value;
            && all != [] && all[0] == root
            && Distinct(all)
            && (forall t: string :: t in all <==> Reaches(files, root, t))
            && (forall i :: 0 < i < |all| ==> NamedAt(files, all, i))
  {
    var all := Lookup(files, root).value;
    assert [root] <= all by {
      var inner := Inside(files, [root], []).value;
      assert [] + [root] == [root] && [root][1..] == [] && all == inner;
    }
    VisitIsDistinct(files, [root], []);
    forall t: string ensures t in all <==> Reaches(files, root, t) {
      FoundIsReached(files, root, t);
    }
    forall i | 0 < i < |all| ensures NamedAt(files, all, i) {
      FoundIsNamed(files, root, i);
    }
  }

  // ---------------------------------------------------------------------------------------------
  // Discovery order
  // ---------------------------------------------------------------------------------------------

  /** The first of `types` that is not in `seen`. */
  function FirstNew(types: seq<string>, seen: seq<string>): (r: Option<string>)
    ensures r.None? <==> forall t: string :: t in types ==> t in seen
    ensures r.Some? ==> exists i :: 0 <= i < |types| && types[i] == r.value && r.value !in seen
                                    && forall j :: 0 <= j < i ==> types[j] in seen
  {
    if types == [] then None
    else if types[0] !in seen then
      assert types[0] == types[0];
      Some(types[0])
    else
      var r := FirstNew(types[1..], seen);
      assert types == [types[0]] + types[1..];
      r
  }

  function NewBelow(files: Files, t: string, seen: seq<string>): Option<string> {
    if Loadable(files, t) then FirstNew(DependenciesOf(files, t), seen) else None
  }

  /** Nothing new is named by the types of `seen` from a position on. */
  ghost predicate Exhausted(files: Files, seen: seq<string>, from: nat) {
    forall j :: from <= j < |seen| ==> NewBelow(files, seen[j], seen).None?
  }

  /** `d` is what a depth-first walk finds next: the first new dependency of the latest type that has one, or
      if none has one, the first new type of what was asked for. */
  ghost predicate IsNext(files: Files, todo: seq<string>, from: nat, seen: seq<string>, d: string) {
    || (Exhausted(files, seen, from) && FirstNew(todo, seen) == Some(d))
    || exists j: nat :: from <= j < |seen| && IsNextBelow(files, seen, j, d)
  }

  ghost predicate IsNextBelow(files: Files, seen: seq<string>, j: nat, d: string)
    requires j < |seen|
  {
    NewBelow(files, seen[j], seen) == Some(d) && Exhausted(files, seen, j + 1)
  }

  /** The types below a finished walk have nothing new to name. */
  lemma InsideIsExhausted(files: Files, todo: seq<string>, order: seq<string>, seen: seq<string>, j: nat)
    requires Distinct(order) && todo != [] && todo[0] !in order && Loadable(files, todo[0])
    requires Inside(files, todo, order).Some? && Inside(files, todo, order).value <= seen
    requires |order| <= j < |Inside(files, todo, order).value|
    ensures NewBelow(files, seen[j], seen).None?
  {
    var t := todo[0];
    var inner := Inside(files, todo, order).value;
    var u := inner[j];
    assert seen[j] == u;
    assert Distinct(order + [t]);
    VisitIsDistinct(files, DependenciesOf(files, t), order + [t]);
    forall d: string | Loadable(files, u) && d in DependenciesOf(files, u) ensures d in seen {
      if j == |order| {
        assert u == t;
        VisitCloses(files, DependenciesOf(files, t), order + [t], d);
      } else {
        assert u !in order + [t] by {
          assert forall k :: 0 <= k < |order| + 1 ==> (order + [t])[k] == inner[k] != u;
        }
        VisitCloses(files, DependenciesOf(files, t), order + [t], u);
      }
      assert d in inner;
    }
  }

  lemma NextAfterSeen(files: Files, todo: seq<string>, from: nat, mid: nat, seen: seq<string>, d: string)
    requires todo != [] && todo[0] in seen && from <= mid
    requires forall j :: from <= j < mid && j < |seen| ==> NewBelow(files, seen[j], seen).None?
    requires IsNext(files, todo[1..], mid, seen, d)
    ensures IsNext(files, todo, from, seen, d)
  {
    hide NewBelow;
  }

  lemma NextInside(files: Files, todo: seq<string>, from: nat, seen: seq<string>, d: string)
    requires from < |seen| && Loadable(files, seen[from])
    requires IsNext(files, DependenciesOf(files, seen[from]), from + 1, seen, d)
    ensures IsNext(files, todo, from, seen, d)
  {
    if Exhausted(files, seen, from + 1) && FirstNew(DependenciesOf(files, seen[from]), seen) == Some(d) {
      assert IsNextBelow(files, seen, from, d);
    }
  }

  lemma OneMoreIsDistinct(types: seq<string>, t: string)
    requires Distinct(types) && t !in types
    ensures Distinct(types + [t])
  {
  }

  lemma VisitSeen(files: Files, todo: seq<string>, order: seq<string>)
    requires Visit(files, todo, order).Some?
    ensures todo == [] ==> Visit(files, todo, order) == Some(order)
    ensures todo != [] && todo[0] in order ==> Visit(files, todo, order) == Visit(files, todo[1..], order)
    ensures todo != [] && todo[0] !in order ==> Loadable(files, todo[0]) && Inside(files, todo, order).Some?
  {
    if todo != [] && todo[0] !in order {
      var inner := Inside(files, todo, order);
    }
  }

  /** The walk is depth first, and follows the order of the dependencies: each type that it adds is the next
      one after those before it. */
  lemma {:induction false} VisitIsDepthFirst(files: Files, todo: seq<string>, order: seq<string>, i: nat)
    requires Distinct(order)
    requires Visit(files, todo, order).Some? && |order| <= i < |Visit(files, todo, order).value|
    ensures var all := Visit(files, todo, order).value;
            IsNext(files, todo, |order|, all[..i], all[i])
    decreases files.Keys - SetOf(order), |todo|
  {
    hide IsNext, NewBelow, Visit, Loadable, SetOf, Distinct, Inside, DependenciesOf;
    VisitSeen(files, todo, order);
    var all := Visit(files, todo, order).value;
    var seen := all[..i];
    assert order <= seen;
    if todo[0] in order {
      VisitIsDepthFirst(files, todo[1..], order, i);
      NextAfterSeen(files, todo, |order|, |order|, seen, all[i]);
    } else {
      var t := todo[0];
      var inner := Inside(files, todo, order).value;
      assert inner <= all;
      if i == |order| {
        assert seen == order && all[i] == inner[i] == (order + [t])[i] == t;
        FirstIsNext(files, todo, order);
      } else if i < |inner| {
        OneMoreIsDistinct(order, t);
        VisitIsDepthFirst(files, DependenciesOf(files, t), order + [t], i);
        assert seen == inner[..i] && seen[|order|] == (order + [t])[|order|] == t;
        NextInside(files, todo, |order|, seen, all[i]);
      } else {
        OneMoreIsDistinct(order, t);
        VisitIsDistinct(files, DependenciesOf(files, t), order + [t]);
        VisitIsDepthFirst(files, todo[1..], inner, i);
        assert inner <= seen;
        forall j | |order| <= j < |inner| ensures NewBelow(files, seen[j], seen).None? {
          InsideIsExhausted(files, todo, order, seen, j);
        }
        NextAfterSeen(files, todo, |order|, |inner|, seen, all[i]);
      }
    }
  }

  lemma FirstIsNext(files: Files, todo: seq<string>, order: seq<string>)
    requires todo != [] && todo[0] !in order
    ensures IsNext(files, todo, |order|, order, todo[0])
  {
  }

  /** The definitions come in depth-first order: each one after the root is the first dependency not yet
      there of the latest type before it that has one. */
  lemma LookupIsDepthFirst(files: Files, root: string, i: nat)
    requires Lookup(files, root).Some? && 0 < i < |Lookup(files, root).value|
    ensures var all := Lookup(files, root).value;
            exists j: nat :: j < i && IsNextBelow(files, all[..i], j, all[i])
  {
    hide IsNextBelow, Exhausted;
    LookupIsTheClosure(files, root);
    VisitIsDepthFirst(files, [root], [], i);
    var seen := Lookup(files, root).value[..i];
    assert seen[0] == root;
    assert FirstNew([root], seen).None?;
  }

  datatype Definition = Definition(name: string, body: string)

  function NamesOf(definitions: seq<Definition>): (names: seq<string>)
    ensures |names| == |definitions|
  {
    seq(|definitions|, i requires 0 <= i < |definitions| => definitions[i].name)
  }

  predicate AreLoaded(files: Files, definitions: seq<Definition>) {
    forall i :: 0 <= i < |definitions| ==>
      definitions[i].name in files && definitions[i].body == files[definitions[i].name]
  }

  /** The two containers that collect() fills. */
  class Collector {
    const files: Files
    var seen: set<string>
    var definitions: seq<Definition>

    function Order(): seq<string>
      reads this`definitions
    {
      NamesOf(definitions)
    }

    ghost predicate Valid()
      reads this
    {
      seen == SetOf(Order()) && AreLoaded(files, definitions)
    }

    constructor (files: Files)
      ensures Valid() && Order() == [] && this.files == files
    {
      this.files := files;
      seen, definitions := {}, [];
    }

    method Push(t: string)
      requires t in files
      requires AreLoaded(files, definitions)
      requires seen == SetOf(Order()) + {t}
      modifies this`definitions
      ensures Valid() && Order() == old(Order()) + [t]
    {
      definitions := definitions + [Definition(t, files[t])];
      assert Order() == old(Order()) + [t];
    }

    method Collect(t: string) returns (ok: bool)
      requires Valid()
      modifies this`seen, this`definitions
      ensures ok == Visit(files, [t], old(Order())).Some?
      ensures ok ==> Valid() && Order() == Visit(files, [t], old(Order())).value
      decreases files.Keys - seen, 0
    {
      ghost var order := Order();
      assert [t][1..] == [];
      if t in seen {
        return true;
      }
      seen := seen + {t};
      var parsed := Parse(t);
      if parsed.None? || t !in files {
        return false;
      }
      Push(t);
      ghost var whole := Inside(files, [t], order);
      var dependencies := ParseDependencies(files[t], parsed.value.package);
      ok := CollectEach(dependencies);
    }

    /** The loop of collect(). */
    method CollectEach(dependencies: seq<string>) returns (ok: bool)
      requires Valid()
      modifies this`seen, this`definitions
      ensures ok == Visit(files, dependencies, old(Order())).Some?
      ensures ok ==> Valid() && Order() == Visit(files, dependencies, old(Order())).value
      decreases files.Keys - seen, 1
    {
      ghost var before := seen;
      ghost var whole := Visit(files, dependencies, Order());
      assert dependencies[0..] == dependencies;
      for i := 0 to |dependencies|
        invariant Valid() && before <= seen
        invariant Visit(files, dependencies[i..], Order()) == whole
      {
        ghost var rest := dependencies[i..];
        OneByOne(files, rest, Order());
        assert rest[0] == dependencies[i] && rest[1..] == dependencies[i + 1..];
        var found := Collect(dependencies[i]);
        if !found {
          return false;
        }
      }
      return true;
    }
  }

  lemma OneByOne(files: Files, todo: seq<string>, order: seq<string>)
    requires todo != []
    ensures Visit(files, todo, order)
            == var first := Visit(files, [todo[0]], order);
               if first.None? then None else Visit(files, todo[1..], first.value)
  {
  }

  method LookupDefinitions(files: Files, root: string) returns (r: Option<seq<Definition>>)
    ensures r.Some? <==> Lookup(files, root).Some?
    ensures r.Some? ==>
              && |r.value| == |Lookup(files, root).value|
              && forall i :: 0 <= i < |r.value| ==>
                   && r.value[i].name == Lookup(files, root).value[i]
                   && r.value[i].name in files && r.value[i].body == files[r.value[i].name]
  {
    var c := new Collector(files);
    var ok := c.Collect(root);
    if !ok {
      return None;
    }
    assert forall i :: 0 <= i < |c.definitions| ==> c.Order()[i] == c.definitions[i].name;
    return Some(c.definitions);
  }
}

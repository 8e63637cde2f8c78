/** The placeholder scanner of the RSX parser (`macros/src/parse.rs`): a text literal
    such as "Count: {count}" depends on the variables named in its `{...}`
    placeholders, where `{{` is an escaped brace and a `:` starts a format spec. */
module RsxParse {
  import opened Common

  /** `s` up to its first `sep` (`split_once(sep)`'s first part, or all of `s`). */
  function Before(s: string, sep: char): (r: string)
    ensures sep !in r
    ensures |r| <= |s| && r == s[..|r|]
    ensures |r| < |s| ==> s[|r|] == sep
  {
    if s == [] then [] else if s[0] == sep then [] else [s[0]] + Before(s[1..], sep)
  }

  /** The characters of a placeholder, from just after its `{` up to the next `}`,
      and what follows that `}`; an unterminated placeholder runs to the end. */
  function TakeName(t: string): (r: (string, string))
    ensures '}' !in r.0
    ensures |r.0| + |r.1| <= |t|
    ensures '}' !in t ==> r == (t, [])
    ensures '}' in t ==> |r.0| + 1 + |r.1| == |t| && t == r.0 + "}" + r.1
  {
    if t == [] then ([], [])
    else if t[0] == '}' then ([], t[1..])
    else
      var (name, rest) := TakeName(t[1..]);
      assert t == [t[0]] + t[1..];
      ([t[0]] + name, rest)
  }

  /** The variables `s` names, scanning from the front as the `while let` loop does. */
  function Vars(s: string): set<string>
    decreases |s|
  {
    if s == [] then {}
    else if s[0] != '{' then Vars(s[1..])
    else if |s| >= 2 && s[1] == '{' then Vars(s[2..])
    else
      var (name, rest) := TakeName(s[1..]);
      (if name != [] then {Before(name, ':')} else {}) + Vars(rest)
  }

  /** No extracted name contains a `}` or a `:`. */
  lemma {:induction false} VarsAreNames(s: string)
    ensures forall v :: v in Vars(s) ==> '}' !in v && ':' !in v
    decreases |s|
  {
    if s != [] {
      if s[0] != '{' {
        VarsAreNames(s[1..]);
      } else if |s| >= 2 && s[1] == '{' {
        VarsAreNames(s[2..]);
      } else {
        var (name, rest) := TakeName(s[1..]);
        VarsAreNames(rest);
        var b := Before(name, ':');
        assert '}' !in b by {
          forall i | 0 <= i < |b| ensures b[i] != '}' {
            assert b[i] == name[i];
          }
        }
      }
    }
  }

  /** Text without `{` names nothing. */
  lemma {:induction false} PlainTextNamesNothing(s: string)
    requires '{' !in s
    ensures Vars(s) == {}
    decreases |s|
  {
    if s != [] {
      PlainTextNamesNothing(s[1..]);
    }
  }

  /** `{{` is an escape: it starts no name, so "{{x}}" names nothing. */
  lemma EscapedBrace(t: string)
    ensures Vars("{{" + t) == Vars(t)
    ensures Vars("{{x}}") == {}
  {
    assert ("{{" + t)[2..] == t;
    PlainTextNamesNothing("x}}");
    assert "{{x}}"[2..] == "x}}";
  }

  /** A placeholder `{name}` names the part of `name` before any `:`, and the
      scan carries on after its `}`; `{}` names nothing. */
  lemma Placeholder(name: string, t: string)
    requires '}' !in name && (name != [] ==> name[0] != '{')
    ensures Vars("{" + name + "}" + t) == (if name != [] then {Before(name, ':')} else {}) + Vars(t)
  {
    var s := "{" + name + "}" + t;
    assert s[1..] == name + "}" + t;
    if name != [] {
      assert s[1] == name[0];
    } else {
      assert s[1] == '}';
    }
    TakeNameOf(name, t);
  }

  lemma {:induction false} TakeNameOf(name: string, t: string)
    requires '}' !in name
    ensures TakeName(name + "}" + t) == (name, t)
    decreases |name|
  {
    if name == [] {
      assert (name + "}" + t)[1..] == t;
    } else {
      assert (name + "}" + t)[0] == name[0];
      assert (name + "}" + t)[1..] == name[1..] + "}" + t;
      TakeNameOf(name[1..], t);
      assert name == [name[0]] + name[1..];
    }
  }

  /** An unterminated placeholder takes the rest of the text as its name. */
  lemma Unterminated(t: string)
    requires '}' !in t && t != [] && t[0] != '{'
    ensures Vars("{" + t) == {Before(t, ':')}
  {
    var s := "{" + t;
    assert s[1..] == t;
    assert Vars([]) == {};
  }

  /** A name that occurs twice is extracted once: "{a}{a}" names just `a`. */
  lemma DuplicatesCollapse(a: string)
    requires '}' !in a && ':' !in a && a != [] && a[0] != '{'
    ensures Vars("{" + a + "}" + "{" + a + "}") == {a}
  {
    var p := "{" + a + "}";
    Placeholder(a, []);
    assert p + [] == p;
    Placeholder(a, p);
    BracedTwice(a, p);
    BeforeAbsent(a, ':');
    assert Vars([]) == {};
  }

  lemma BracedTwice(a: string, p: string)
    requires p == "{" + a + "}"
    ensures "{" + a + "}" + "{" + a + "}" == p + p
  {
  }

  lemma {:induction false} BeforeAbsent(s: string, sep: char)
    requires sep !in s
    ensures Before(s, sep) == s
  {
    if s != [] {
      BeforeAbsent(s[1..], sep);
    }
  }

  /** `extract_vars_from_lit`: the `while let` loop over the characters, with the inner
      loop that collects a name up to `}`. */
  method ExtractVars(s: string) returns (vars: set<string>)
    ensures vars == Vars(s)
  {
    vars := {};
    var i := 0;
    assert s[0..] == s;
    while i < |s|
      invariant 0 <= i <= |s|
      invariant vars + Vars(s[i..]) == Vars(s)
      decreases |s| - i
    {
      var c := s[i];
      SkipStep(s, i);
      i := i + 1;
      if c == '{' {
        if i < |s| && s[i] == '{' {
          i := i + 1;
          continue;
        }
        var name;
        name, i := ReadPlaceholder(s, i);
        if name != [] {
          vars := vars + {Before(name, ':')};
        }
      }
    }
  }

  /** The inner loop of `extract_vars_from_lit`: collects a name from `start` up
      to the next `}`, which it consumes, or to the end of the text. */
  method ReadPlaceholder(s: string, start: nat) returns (name: string, i: nat)
    requires 1 <= start <= |s| && s[start - 1] == '{'
    requires start < |s| ==> s[start] != '{'
    ensures start <= i <= |s|
    ensures Vars(s[start - 1..]) == (if name != [] then {Before(name, ':')} else {}) + Vars(s[i..])
  {
    name := "";
    i := start;
    var closed := false;
    while i < |s| && !closed
      invariant start <= i <= |s| && (closed ==> start < i)
      invariant !closed ==> name == s[start..i] && '}' !in name
      invariant closed ==> name == s[start..i - 1] && '}' !in name && s[i - 1] == '}'
      decreases |s| - i, if closed then 0 else 1
    {
      var ch := s[i];
      i := i + 1;
      if ch == '}' {
        closed := true;
      } else {
        name := name + [ch];
      }
    }
    ScanStep(s, start, i, closed, name);
  }

  /** A character other than `{` names nothing, nor does a `{{` escape. */
  lemma SkipStep(s: string, i: nat)
    requires i < |s|
    ensures s[i] != '{' ==> Vars(s[i..]) == Vars(s[i + 1..])
    ensures s[i] == '{' && i + 1 < |s| && s[i + 1] == '{' ==> Vars(s[i..]) == Vars(s[i + 2..])
  {
    var here := s[i..];
    assert here[1..] == s[i + 1..];
    if i + 1 < |s| {
      assert here[2..] == s[i + 2..];
    }
  }

  /** One placeholder of the loop: the name and the rest are what `TakeName` gives. */
  lemma ScanStep(s: string, start: nat, i: nat, closed: bool, name: string)
    requires 1 <= start <= i <= |s| && s[start - 1] == '{'
    requires start < |s| ==> s[start] != '{'
    requires !closed ==> i == |s| && name == s[start..i] && '}' !in name
    requires closed ==> start < i && name == s[start..i - 1] && '}' !in name && s[i - 1] == '}'
    ensures Vars(s[start - 1..]) == (if name != [] then {Before(name, ':')} else {}) + Vars(s[i..])
  {
    var here := s[start - 1..];
    assert here[1..] == s[start..];
    if closed {
      assert s[start..] == name + "}" + s[i..];
      TakeNameOf(name, s[i..]);
    } else {
      assert s[start..] == name;
      assert s[i..] == [];
    }
    if start < |s| {
      assert here[1] == s[start];
    }
  }

  /** A dependency of an RSX node: the variable, the pattern it is bound with (an
      opaque expression), and whether it was declared with `%`. */
  datatype Dep = Dep(ident: string, pat: Option<nat>, isDep: bool)

  /** The dependencies of a text node: the explicit ones, then one per placeholder
      variable, without pattern and not marked as declared. The placeholder
      variables come from a hash set, whose order is unspecified. */
  method TextDeps(deps: seq<Dep>, text: string) returns (r: seq<Dep>)
    ensures |r| == |deps| + |Vars(text)| && r[..|deps|] == deps
    ensures forall k :: |deps| <= k < |r| ==> r[k].pat.None? && !r[k].isDep && r[k].ident in Vars(text)
    ensures forall v :: v in Vars(text) ==> exists k :: |deps| <= k < |r| && r[k].ident == v
    ensures forall k, l :: |deps| <= k < l < |r| ==> r[k].ident != r[l].ident
  {
    var vars := ExtractVars(text);
    r := AppendVars(deps, vars);
  }

  /** The loop of `TextDeps` that appends one dependency per variable of the set,
      in whatever order the set yields them. */
  method AppendVars(deps: seq<Dep>, vars: set<string>) returns (r: seq<Dep>)
    ensures Appended(r, deps, vars)
  {
    r := deps;
    var remaining := vars;
    ghost var done: set<string> := {};
    assert r[..|deps|] == deps;
    while remaining != {}
      invariant done <= vars && remaining == vars - done
      invariant Appended(r, deps, done)
      decreases |remaining|
    {
      var v :| v in remaining;
      AppendedStep(r, deps, done, v);
      r := r + [Dep(v, Option.None, false)];
      done := done + {v};
      remaining := remaining - {v};
    }
    assert done == vars;
  }

  /** `r` is `deps` followed by one fresh dependency per name of `done`, each once. */
  ghost predicate Appended(r: seq<Dep>, deps: seq<Dep>, done: set<string>)
  {
    |r| == |deps| + |done| && r[..|deps|] == deps &&
    FreshFrom(r, |deps|, done) && Covers(r, |deps|, done) && Distinct(r, |deps|)
  }

  /** From `n` on, dependencies without pattern, not declared, named from `done`. */
  ghost predicate FreshFrom(r: seq<Dep>, n: nat, done: set<string>)
  {
    forall k :: n <= k < |r| ==> r[k].pat.None? && !r[k].isDep && r[k].ident in done
  }

  /** Every name of `done` occurs from `n` on. */
  ghost predicate Covers(r: seq<Dep>, n: nat, done: set<string>)
  {
    forall v :: v in done ==> exists k :: n <= k < |r| && r[k].ident == v
  }

  /** No name occurs twice from `n` on. */
  ghost predicate Distinct(r: seq<Dep>, n: nat)
  {
    forall k, l :: n <= k < l < |r| ==> r[k].ident != r[l].ident
  }

  lemma AppendedStep(r: seq<Dep>, deps: seq<Dep>, done: set<string>, v: string)
    requires Appended(r, deps, done) && v !in done
    ensures Appended(r + [Dep(v, Option.None, false)], deps, done + {v})
  {
    var r' := r + [Dep(v, Option.None, false)];
    assert r'[..|deps|] == deps by {
      assert r'[..|deps|] == r[..|deps|];
    }
    FreshStep(r, |deps|, done, v);
    CoversStep(r, |deps|, done, v);
    DistinctStep(r, |deps|, done, v);
  }

  lemma FreshStep(r: seq<Dep>, n: nat, done: set<string>, v: string)
    requires FreshFrom(r, n, done)
    ensures FreshFrom(r + [Dep(v, Option.None, false)], n, done + {v})
  {
    var r' := r + [Dep(v, Option.None, false)];
    forall k | n <= k < |r'|
      ensures r'[k].pat.None? && !r'[k].isDep && r'[k].ident in done + {v}
    {
      if k < |r| {
        assert r'[k] == r[k];
      }
    }
  }

  lemma CoversStep(r: seq<Dep>, n: nat, done: set<string>, v: string)
    requires Covers(r, n, done) && n <= |r|
    ensures Covers(r + [Dep(v, Option.None, false)], n, done + {v})
  {
    var r' := r + [Dep(v, Option.None, false)];
    forall u | u in done + {v}
      ensures exists k :: n <= k < |r'| && r'[k].ident == u
    {
      if u == v {
        assert r'[|r|].ident == v;
      } else {
        var k :| n <= k < |r| && r[k].ident == u;
        assert r'[k] == r[k];
      }
    }
  }

  lemma DistinctStep(r: seq<Dep>, n: nat, done: set<string>, v: string)
    requires Distinct(r, n) && FreshFrom(r, n, done) && v !in done
    ensures Distinct(r + [Dep(v, Option.None, false)], n)
  {
    var r' := r + [Dep(v, Option.None, false)];
    forall k, l | n <= k < l < |r'|
      ensures r'[k].ident != r'[l].ident
    {
      assert r'[k] == r[k];
      if l < |r| {
        assert r'[l] == r[l];
      }
    }
  }
}

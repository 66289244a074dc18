/** The filter the backup command hands to its copy:
    `shutil.ignore_patterns('*.ini', '*.default')`, applied to the names
    of each directory the copy visits. */
module Exclusion {
  import opened Sequences

  /** Shell-style matching as `fnmatch` does it on a whole name: `*` matches
      any run of characters, `?` any one character, every other character
      itself. */
  function Match(pattern: string, name: string): bool
    decreases |pattern| + |name|
  {
    if |pattern| == 0 then |name| == 0
    else if pattern[0] == '*' then
      Match(pattern[1..], name) || (|name| > 0 && Match(pattern, name[1..]))
    else
      |name| > 0 && (pattern[0] == '?' || pattern[0] == name[0]) && Match(pattern[1..], name[1..])
  }

  /** A pattern without wildcards. */
  predicate IsLiteral(pattern: string) {
    forall i :: 0 <= i < |pattern| ==> pattern[i] != '*' && pattern[i] != '?'
  }

  predicate EndsWith(name: string, suffix: string) {
    |suffix| <= |name| && name[|name| - |suffix|..] == suffix
  }

  /** A literal pattern matches only itself. */
  lemma {:induction false} MatchLiteral(pattern: string, name: string)
    requires IsLiteral(pattern)
    ensures Match(pattern, name) <==> name == pattern
  {
    if |pattern| > 0 && |name| > 0 {
      MatchLiteral(pattern[1..], name[1..]);
      assert name == [name[0]] + name[1..];
      assert pattern == [pattern[0]] + pattern[1..];
    }
  }

  /** `*` followed by a literal matches exactly the names ending in it. */
  lemma {:induction false} MatchStarSuffix(suffix: string, name: string)
    requires IsLiteral(suffix) && |suffix| > 0
    ensures Match("*" + suffix, name) <==> EndsWith(name, suffix)
  {
    var p := "*" + suffix;
    assert p[1..] == suffix;
    MatchLiteral(suffix, name);
    if |name| > 0 {
      MatchStarSuffix(suffix, name[1..]);
      if |suffix| <= |name[1..]| {
        assert name[1..][|name[1..]| - |suffix|..] == name[|name| - |suffix|..];
      }
    }
  }

  /** The two patterns the backup passes to `ignore_patterns`. */
  const IgnoredPatterns: seq<string> := ["*.ini", "*.default"]

  /** A name the copy skips: it matches one of the ignored patterns. */
  predicate IsIgnored(name: string) {
    exists p :: p in IgnoredPatterns && Match(p, name)
  }

  /** The exclusion is a pure suffix test: a name is skipped exactly when it
      ends in `.ini` or `.default`. */
  lemma IgnoredIffSuffix(name: string)
    ensures IsIgnored(name) <==> EndsWith(name, ".ini") || EndsWith(name, ".default")
  {
    assert "*.ini" == "*" + ".ini";
    assert "*.default" == "*" + ".default";
    MatchStarSuffix(".ini", name);
    MatchStarSuffix(".default", name);
    assert IgnoredPatterns[0] == "*.ini" && IgnoredPatterns[1] == "*.default";
  }

  /** What the ignore callback returns for one directory: the set of its
      names to skip. */
  function IgnoredNames(names: seq<string>): (r: set<string>)
    ensures forall n :: n in r ==> n in names && (EndsWith(n, ".ini") || EndsWith(n, ".default"))
    ensures forall n :: n in names && (EndsWith(n, ".ini") || EndsWith(n, ".default")) ==> n in r
  {
    forall n | n in names ensures IsIgnored(n) <==> EndsWith(n, ".ini") || EndsWith(n, ".default") {
      IgnoredIffSuffix(n);
    }
    set n | n in names && IsIgnored(n)
  }

  /** The names of one directory the copy goes on to copy, in listing order:
      those not in the ignored set. */
  function CopiedNames(names: seq<string>): (r: seq<string>)
    ensures forall n :: n in r <==> n in names && !EndsWith(n, ".ini") && !EndsWith(n, ".default")
  {
    var ignored := IgnoredNames(names);
    var keep := (n: string) => n !in ignored;
    FilterMembers(names, keep);
    Filter(names, keep)
  }

  /** A profile holding `places.sqlite` and `prefs.ini`: `prefs.ini` is
      left behind, `places.sqlite` is copied. */
  lemma CopiedNamesExample()
    ensures CopiedNames(["places.sqlite", "prefs.ini"]) == ["places.sqlite"]
  {
    var a := ["places.sqlite", "prefs.ini"];
    assert EndsWith(a[1], ".ini");
    assert !EndsWith(a[0], ".ini") && !EndsWith(a[0], ".default");
    assert IgnoredNames(a) == {"prefs.ini"};
    assert a[1..][1..] == [];
  }

  /** A folder merely named `default` is copied; one ending in `.default`
      is not. */
  lemma DefaultFolderExample()
    ensures CopiedNames(["default", "abcd.default"]) == ["default"]
  {
    var b := ["default", "abcd.default"];
    assert EndsWith(b[1], ".default");
    assert !EndsWith(b[0], ".ini") && !EndsWith(b[0], ".default");
    assert IgnoredNames(b) == {"abcd.default"};
    assert b[1..][1..] == [];
  }
}

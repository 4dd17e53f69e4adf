/** The name handling of the module generator script: the name typed by
    the user is put in kebab case for paths and in Pascal case for class
    names. Prompting and the generated file templates are left out. */
module ModuleGenerator {
  import opened Wrappers
  import opened Strings

  // ---------------------------------------------------------- Pascal case

  /** `word.charAt(0).toUpperCase() + word.slice(1)`. */
  function Capitalize(word: string): (r: string)
    ensures |r| == |word|
    ensures |word| > 0 ==> r[0] == UpperChar(word[0]) && r[1..] == word[1..]
  {
    if |word| == 0 then "" else [UpperChar(word[0])] + word[1..]
  }

  function Caps(words: seq<string>): seq<string> {
    seq(|words|, i requires 0 <= i < |words| => Capitalize(words[i]))
  }

  /** Capitalized words, joined with nothing between them. */
  function PascalOfWords(words: seq<string>): string {
    Join(Caps(words), "")
  }

  /** `str.split('-').map(capitalize).join('')`. */
  function PascalCase(s: string): string {
    PascalOfWords(Split(s, '-'))
  }

  /** The Pascal name has no '-'. */
  lemma PascalHasNoDash(s: string)
    ensures '-' !in PascalCase(s)
  {
    var words := Split(s, '-');
    var caps := Caps(words);
    forall i | 0 <= i < |caps| ensures '-' !in caps[i] {
      assert forall j :: 0 <= j < |words[i]| ==> words[i][j] != '-';
    }
    JoinNoChar(caps, '-');
  }

  /** Pieces joined with nothing between them hold only their own
      characters. */
  lemma {:induction false} JoinNoChar(parts: seq<string>, c: char)
    requires forall i :: 0 <= i < |parts| ==> c !in parts[i]
    ensures c !in Join(parts, "")
  {
    if |parts| > 1 {
      JoinNoChar(parts[1..], c);
      assert Join(parts, "") == parts[0] + Join(parts[1..], "");
    }
  }

  /** Joining with nothing between is concatenation. */
  lemma {:induction false} JoinConcat(xs: seq<string>, ys: seq<string>)
    ensures Join(xs + ys, "") == Join(xs, "") + Join(ys, "")
  {
    if |xs| == 0 {
      assert xs + ys == ys;
    } else if |ys| == 0 {
      assert xs + ys == xs;
    } else {
      var zs := xs + ys;
      assert zs[0] == xs[0];
      JoinPlainStep(zs);
      if |xs| == 1 {
        assert zs[1..] == ys;
      } else {
        assert zs[1..] == xs[1..] + ys;
        JoinConcat(xs[1..], ys);
        JoinPlainStep(xs);
        ConcatAssoc(xs[0], Join(xs[1..], ""), Join(ys, ""));
      }
    }
  }

  lemma JoinPlainStep(zs: seq<string>)
    requires |zs| > 1
    ensures Join(zs, "") == zs[0] + Join(zs[1..], "")
  {
    assert zs[0] + "" == zs[0];
  }

  lemma PascalOfWordsConcat(xs: seq<string>, ys: seq<string>)
    ensures PascalOfWords(xs + ys) == PascalOfWords(xs) + PascalOfWords(ys)
  {
    assert Caps(xs + ys) == Caps(xs) + Caps(ys);
    JoinConcat(Caps(xs), Caps(ys));
  }

  /** Pascal case works segment by segment: a '-' separates two words that
      are capitalized each on its own. */
  lemma PascalSplitsAtDash(a: string, b: string)
    ensures PascalCase(a + "-" + b) == PascalCase(a) + PascalCase(b)
  {
    SplitConcat(a, b, '-');
    PascalOfWordsConcat(Split(a, '-'), Split(b, '-'));
  }

  /** A word without '-' has its first character upper-cased and the rest
      kept. */
  lemma PascalOfWord(s: string)
    requires '-' !in s
    ensures PascalCase(s) == Capitalize(s)
  {
    SplitWithoutSep(s, '-');
  }

  /** `s` without its '-' characters. */
  function WithoutDashes(s: string): (r: string)
    ensures '-' !in r
    ensures |r| <= |s|
  {
    if |s| == 0 then "" else (if s[0] == '-' then "" else [s[0]]) + WithoutDashes(s[1..])
  }

  lemma {:induction false} WithoutDashesConcat(a: string, b: string)
    ensures WithoutDashes(a + b) == WithoutDashes(a) + WithoutDashes(b)
    decreases |a|
  {
    if |a| == 0 {
      assert a + b == b;
    } else {
      var head := if a[0] == '-' then "" else [a[0]];
      assert (a + b)[0] == a[0];
      assert (a + b)[1..] == a[1..] + b;
      assert WithoutDashes(a + b) == head + WithoutDashes(a[1..] + b);
      WithoutDashesConcat(a[1..], b);
      assert WithoutDashes(a) == head + WithoutDashes(a[1..]);
    }
  }

  lemma {:induction false} WithoutDashesNoDash(s: string)
    requires '-' !in s
    ensures WithoutDashes(s) == s
  {
    if |s| > 0 {
      WithoutDashesNoDash(s[1..]);
      assert [s[0]] + s[1..] == s;
    }
  }

  lemma ToLowerConcat(a: string, b: string)
    ensures ToLower(a + b) == ToLower(a) + ToLower(b)
  {
  }

  lemma LowerCapitalize(word: string)
    ensures ToLower(Capitalize(word)) == ToLower(word)
  {
  }

  /** The position of the first '-' of `s`, or `|s|` when it has none. */
  function DashIndex(s: string): (i: nat)
    ensures i <= |s|
    ensures i < |s| ==> s[i] == '-'
    ensures forall j :: 0 <= j < i ==> s[j] != '-'
  {
    if |s| == 0 || s[0] == '-' then 0 else 1 + DashIndex(s[1..])
  }

  lemma PascalAtDash(s: string, i: nat)
    requires i < |s| && s[i] == '-' && forall j :: 0 <= j < i ==> s[j] != '-'
    ensures PascalCase(s) == Capitalize(s[..i]) + PascalCase(s[i + 1..])
  {
    var a, b := s[..i], s[i + 1..];
    assert s == a + "-" + b;
    PascalSplitsAtDash(a, b);
    assert '-' !in a;
    PascalOfWord(a);
  }

  lemma WithoutDashesCons(c: char, t: string)
    ensures WithoutDashes([c] + t) == (if c == '-' then "" else [c]) + WithoutDashes(t)
  {
    assert ([c] + t)[1..] == t;
  }

  lemma WithoutDashesAtDash(s: string, i: nat)
    requires i < |s| && s[i] == '-' && forall j :: 0 <= j < i ==> s[j] != '-'
    ensures WithoutDashes(s) == s[..i] + WithoutDashes(s[i + 1..])
  {
    var a, b := s[..i], s[i + 1..];
    assert s == a + (['-'] + b);
    assert '-' !in a;
    WithoutDashesAroundDash(a, b);
  }

  lemma WithoutDashesAroundDash(a: string, b: string)
    requires '-' !in a
    ensures WithoutDashes(a + (['-'] + b)) == a + WithoutDashes(b)
  {
    var tail := ['-'] + b;
    WithoutDashesConcat(a, tail);
    WithoutDashesCons('-', b);
    var wb := WithoutDashes(b);
    assert WithoutDashes(tail) == wb by {
      assert "" + wb == wb;
    }
    WithoutDashesNoDash(a);
  }

  /** Pascal case loses only the dashes and the case of letters: lowered,
      it is the lowered input without its '-'. */
  lemma {:induction false} PascalKeepsLetters(s: string)
    ensures ToLower(PascalCase(s)) == ToLower(WithoutDashes(s))
    decreases |s|
  {
    var i := DashIndex(s);
    if i < |s| {
      var a, b := s[..i], s[i + 1..];
      PascalAtDash(s, i);
      WithoutDashesAtDash(s, i);
      PascalKeepsLetters(b);
      ToLowerConcat(Capitalize(a), PascalCase(b));
      ToLowerConcat(a, WithoutDashes(b));
      LowerCapitalize(a);
    } else {
      assert '-' !in s;
      PascalOfWord(s);
      LowerCapitalize(s);
      WithoutDashesNoDash(s);
    }
  }

  // ----------------------------------------------------------- kebab case

  /** A lower-case letter followed by an upper-case one starts at `i`. */
  predicate Boundary(s: string, i: int) {
    0 <= i && i + 1 < |s| && IsAsciiLower(s[i]) && IsAsciiUpper(s[i + 1])
  }

  /** `str.replace(/([a-z])([A-Z])/g, '$1-$2')`: the matches found scanning
      left to right, each consumed whole, with '-' put inside each. */
  function Hyphenate(s: string): (r: string)
    ensures |r| >= |s|
    decreases |s|
  {
    if |s| < 2 then s
    else if Boundary(s, 0) then [s[0], '-', s[1]] + Hyphenate(s[2..])
    else [s[0]] + Hyphenate(s[1..])
  }

  /** The same, stated position by position: every character, followed by
      '-' where a lower-case letter meets an upper-case one. */
  function DashAtBoundaries(s: string): string
    decreases |s|
  {
    if |s| == 0 then "" else [s[0]] + (if Boundary(s, 0) then "-" else "") + DashAtBoundaries(s[1..])
  }

  /** The regular-expression scan puts '-' exactly at the boundaries:
      matches never overlap, since an upper-case letter cannot start
      one. */
  lemma {:induction false} HyphenateAtBoundaries(s: string)
    ensures Hyphenate(s) == DashAtBoundaries(s)
    decreases |s|
  {
    if |s| >= 2 {
      if Boundary(s, 0) {
        HyphenateAtBoundaries(s[2..]);
        assert s[1..][1..] == s[2..];
        assert !Boundary(s[1..], 0);
        assert DashAtBoundaries(s[1..]) == [s[1]] + DashAtBoundaries(s[2..]);
      } else {
        HyphenateAtBoundaries(s[1..]);
      }
    } else if |s| == 1 {
      assert DashAtBoundaries(s[1..]) == "";
    }
  }

  /** `toKebabCase(str)`: the hyphenated string, lower-cased. */
  function KebabCase(s: string): (r: string)
    ensures forall i :: 0 <= i < |r| ==> !IsAsciiUpper(r[i])
  {
    ToLower(Hyphenate(s))
  }

  /** A string without upper-case letters has no boundary, so kebab case
      leaves it as it is. */
  lemma {:induction false} KebabOfLower(s: string)
    requires forall i :: 0 <= i < |s| ==> !IsAsciiUpper(s[i])
    ensures KebabCase(s) == s
    decreases |s|
  {
    NoBoundaryHyphenate(s);
  }

  lemma {:induction false} NoBoundaryHyphenate(s: string)
    requires forall i :: 0 <= i < |s| ==> !IsAsciiUpper(s[i])
    ensures Hyphenate(s) == s
    decreases |s|
  {
    if |s| >= 2 {
      NoBoundaryHyphenate(s[1..]);
      assert [s[0]] + s[1..] == s;
    }
  }

  /** Kebab case adds only dashes: without them, it is the lowered input
      without its own. */
  lemma KebabAddsOnlyDashes(s: string)
    ensures WithoutDashes(KebabCase(s)) == ToLower(WithoutDashes(s))
  {
    HyphenateAtBoundaries(s);
    DashesOfBoundaries(s);
    LowerWithoutDashes(Hyphenate(s));
  }

  lemma {:induction false} DashesOfBoundaries(s: string)
    ensures WithoutDashes(DashAtBoundaries(s)) == WithoutDashes(s)
    decreases |s|
  {
    if |s| > 0 {
      var head := [s[0]] + (if Boundary(s, 0) then "-" else "");
      DashesOfBoundaries(s[1..]);
      WithoutDashesConcat(head, DashAtBoundaries(s[1..]));
      WithoutDashesConcat([s[0]], if Boundary(s, 0) then "-" else "");
      assert WithoutDashes(if Boundary(s, 0) then "-" else "") == "";
    }
  }

  /** Lower-casing neither makes nor removes a '-'. */
  lemma {:induction false} LowerWithoutDashes(s: string)
    ensures WithoutDashes(ToLower(s)) == ToLower(WithoutDashes(s))
    decreases |s|
  {
    if |s| > 0 {
      LowerWithoutDashes(s[1..]);
      assert ToLower(s)[1..] == ToLower(s[1..]);
      ToLowerConcat(if s[0] == '-' then "" else [s[0]], WithoutDashes(s[1..]));
    }
  }

  // ---------------------------------------------------------- module name

  /** `generateModule`'s names: none for an empty answer (the generator
      stops); otherwise the kebab name and the Pascal name made from it. */
  function ModuleName(input: string): (r: Option<(string, string)>)
    ensures r.None? <==> input == ""
    ensures r.Some? ==> r.value.0 == KebabCase(input) && r.value.1 == PascalCase(r.value.0)
  {
    if input == "" then None
    else
      var kebab := KebabCase(input);
      Some((kebab, PascalCase(kebab)))
  }

  /** The names keep the input's letters: the kebab name has no upper-case
      letter, the Pascal name no '-', and both, without dashes and lowered,
      are the input without dashes, lowered. */
  lemma ModuleNameKeepsLetters(input: string)
    requires input != ""
    ensures var (kebab, pascal) := ModuleName(input).value;
      '-' !in pascal &&
      WithoutDashes(kebab) == ToLower(WithoutDashes(input)) &&
      ToLower(pascal) == ToLower(WithoutDashes(input))
  {
    var kebab := KebabCase(input);
    KebabAddsOnlyDashes(input);
    PascalKeepsLetters(kebab);
    PascalHasNoDash(kebab);
    var w := WithoutDashes(kebab);
    assert forall i :: 0 <= i < |w| ==> !IsAsciiUpper(w[i]) by {
      NoUpperWithoutDashes(kebab);
    }
    assert ToLower(w) == w;
  }

  lemma {:induction false} NoUpperWithoutDashes(s: string)
    requires forall i :: 0 <= i < |s| ==> !IsAsciiUpper(s[i])
    ensures forall i :: 0 <= i < |WithoutDashes(s)| ==> !IsAsciiUpper(WithoutDashes(s)[i])
    decreases |s|
  {
    if |s| > 0 {
      NoUpperWithoutDashes(s[1..]);
    }
  }

  /** A run of characters that are not upper-case letters, followed by
      one that is not either, holds no boundary. */
  lemma {:induction false} HyphenateAfterPlain(a: string, t: string)
    requires forall i :: 0 <= i < |a| ==> !IsAsciiUpper(a[i])
    requires |t| > 0 && !IsAsciiUpper(t[0])
    ensures Hyphenate(a + t) == a + Hyphenate(t)
    decreases |a|
  {
    if |a| > 0 {
      var s := a + t;
      assert s[1..] == a[1..] + t;
      assert s[1] == if |a| > 1 then a[1] else t[0];
      assert !Boundary(s, 0);
      assert Hyphenate(s) == [a[0]] + Hyphenate(a[1..] + t);
      HyphenateAfterPlain(a[1..], t);
      assert a == [a[0]] + a[1..];
    } else {
      assert a + t == t;
    }
  }

  lemma HyphenateBoundary(x: char, y: char, rest: string)
    requires IsAsciiLower(x) && IsAsciiUpper(y)
    ensures Hyphenate([x, y] + rest) == [x, '-', y] + Hyphenate(rest)
  {
    assert ([x, y] + rest)[2..] == rest;
  }

  /** A name of two words in camel case gets one '-' between them. */
  lemma HyphenateTwoWords(head: string, x: char, y: char, rest: string)
    requires forall i :: 0 <= i < |head| ==> !IsAsciiUpper(head[i])
    requires forall i :: 0 <= i < |rest| ==> !IsAsciiUpper(rest[i])
    requires IsAsciiLower(x) && IsAsciiUpper(y)
    ensures Hyphenate(head + [x, y] + rest) == head + [x, '-', y] + rest
  {
    var t := [x, y] + rest;
    assert t[0] == x;
    assert head + [x, y] + rest == head + t;
    HyphenateAfterPlain(head, t);
    HyphenateBoundary(x, y, rest);
    NoBoundaryHyphenate(rest);
    assert Hyphenate(head + t) == head + ([x, '-', y] + rest);
  }

  lemma HyphenateExample(input: string, hyphenated: string)
    requires input == "driveAccount" && hyphenated == "drive-Account"
    ensures Hyphenate(input) == hyphenated
  {
    var head, rest := "driv", "ccount";
    assert input == head + ['e', 'A'] + rest;
    HyphenateTwoWords(head, 'e', 'A', rest);
    assert hyphenated == head + ['e', '-', 'A'] + rest;
  }

  /** "driveAccount" is put in kebab case as "drive-account". */
  lemma KebabExample(input: string, hyphenated: string, kebab: string)
    requires input == "driveAccount" && hyphenated == "drive-Account" && kebab == "drive-account"
    ensures KebabCase(input) == kebab
  {
    HyphenateExample(input, hyphenated);
    assert LowerChar('A') == 'a';
    assert ToLower(hyphenated)[6] == 'a';
  }

  lemma CapitalizeExample(word: string, capitalized: string, c: char, rest: string)
    requires |word| > 0 && word[0] == c && IsAsciiLower(c) && word[1..] == rest
    requires capitalized == [(c as int - 32) as char] + rest
    ensures Capitalize(word) == capitalized
  {
  }

  /** "drive-account" is put in Pascal case as "DriveAccount". */
  lemma PascalExample(w1: string, w2: string, p1: string, p2: string)
    requires w1 == "drive" && w2 == "account" && p1 == "Drive" && p2 == "Account"
    ensures PascalCase(w1 + "-" + w2) == p1 + p2
  {
    PascalSplitsAtDash(w1, w2);
    assert '-' !in w1;
    PascalOfWord(w1);
    assert '-' !in w2;
    PascalOfWord(w2);
    CapitalizeExample(w1, p1, 'd', w1[1..]);
    CapitalizeExample(w2, p2, 'a', w2[1..]);
  }

  /** "driveAccount" gives the directory "drive-account" and the class
      prefix "DriveAccount". */
  lemma DriveAccountExample(input: string, kebab: string, pascal: string)
    requires input == "driveAccount" && kebab == "drive-account" && pascal == "DriveAccount"
    ensures ModuleName(input) == Some((kebab, pascal))
  {
    KebabExample(input, "drive-Account", kebab);
    assert kebab == "drive" + "-" + "account" && pascal == "Drive" + "Account";
    PascalExample("drive", "account", "Drive", "Account");
  }
}

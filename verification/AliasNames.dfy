/** The type-alias names `define_ioctl!` derives from a constant's name: SCREAMING_SNAKE_CASE to PascalCase,
    over ASCII. */
module AliasNames {

  predicate IsUpper(c: char) {
    'A' <= c <= 'Z'
  }

  predicate IsLower(c: char) {
    'a' <= c <= 'z'
  }

  predicate IsDigit(c: char) {
    '0' <= c <= '9'
  }

  function ToUpper(c: char): char {
    if IsLower(c) then ((c as int) - 32) as char else c
  }

  function ToLower(c: char): char {
    if IsUpper(c) then ((c as int) + 32) as char else c
  }

  // ----- derive_alias_names

  /** `split('_')`: always at least one word, possibly empty ones. */
  function Split(s: string): (words: seq<string>)
    ensures words != []
  {
    if s == "" then [""]
    else
      var rest := Split(s[1..]);
      if s[0] == '_' then [""] + rest else [[s[0]] + rest[0]] + rest[1..]
  }

  function Lowercase(s: string): string {
    if s == "" then "" else [ToLower(s[0])] + Lowercase(s[1..])
  }

  function Capitalize(word: string): string {
    if word == "" then "" else [ToUpper(word[0])] + Lowercase(word[1..])
  }

  function Collect(words: seq<string>): string {
    if words == [] then "" else Capitalize(words[0]) + Collect(words[1..])
  }

  function Pascal(name: string): string {
    Collect(Split(name))
  }

  function InputAlias(name: string): string {
    Pascal(name) + "Input"
  }

  function OutputAlias(name: string): string {
    Pascal(name) + "Output"
  }

  // ----- which names the derivation is for

  predicate GoodWord(word: string) {
    word != "" && IsUpper(word[0]) && forall i :: 1 <= i < |word| ==> IsUpper(word[i]) || IsDigit(word[i])
  }

  predicate GoodWords(words: seq<string>) {
    forall i :: 0 <= i < |words| ==> GoodWord(words[i])
  }

  /** SCREAMING_SNAKE_CASE: words of upper-case letters and digits, each starting with a letter, separated by
      single underscores. */
  predicate WellFormed(name: string) {
    GoodWords(Split(name))
  }

  predicate IsLetter(c: char) {
    IsUpper(c) || IsLower(c)
  }

  predicate IsNameChar(c: char) {
    IsLetter(c) || IsDigit(c) || c == '_'
  }

  /** The characters of ASCII identifiers. */
  predicate Ascii(s: string) {
    forall i :: 0 <= i < |s| ==> IsNameChar(s[i])
  }

  /** An ASCII identifier. */
  predicate IsIdentifier(name: string) {
    name != "" && !IsDigit(name[0]) && Ascii(name)
  }

  // ----- which names have aliases

  /** A digit comes first once the leading underscores are gone. */
  predicate DigitFirst(s: string) {
    s != "" && if s[0] == '_' then DigitFirst(s[1..]) else IsDigit(s[0])
  }

  /** The strings derived from the name are identifiers. `Ident::new` panics on any other string, and with it the
      whole macro. */
  predicate HasAliases(name: string) {
    IsIdentifier(InputAlias(name)) && IsIdentifier(OutputAlias(name))
  }

  // ----- what the derivation does not tell apart

  function Uppercase(s: string): string {
    if s == "" then "" else [ToUpper(s[0])] + Uppercase(s[1..])
  }

  /** Empty words dropped, and the others in upper case, joined by underscores; but a word that starts with a digit
      is joined directly to the word before it. */
  function Rejoin(words: seq<string>, first: bool): string {
    if words == [] then ""
    else if words[0] == "" then Rejoin(words[1..], first)
    else (if first || IsDigit(words[0][0]) then "" else "_") + Uppercase(words[0]) + Rejoin(words[1..], false)
  }

  function Normal(name: string): string {
    Rejoin(Split(name), true)
  }

  // ----- the inverse

  /** Back from PascalCase: a word starts at every upper-case letter. */
  function Unpascal(p: string, first: bool): string {
    if p == "" then ""
    else (if IsUpper(p[0]) && !first then "_" else "") + [ToUpper(p[0])] + Unpascal(p[1..], false)
  }

  // ----- one-pass forms, for the proofs

  function Scan(s: string, start: bool): string {
    if s == "" then ""
    else if s[0] == '_' then Scan(s[1..], true)
    else [if start then ToUpper(s[0]) else ToLower(s[0])] + Scan(s[1..], false)
  }

  function Rescan(s: string, start: bool, first: bool): (r: string)
    ensures |r| <= |s| + if start && !first then 1 else 0
  {
    if s == "" then ""
    else if s[0] == '_' then Rescan(s[1..], true, first)
    else (if start && !first && !IsDigit(s[0]) then "_" else "") + [ToUpper(s[0])] + Rescan(s[1..], false, false)
  }

  predicate Shaped(s: string, start: bool) {
    if s == "" then !start
    else if s[0] == '_' then !start && Shaped(s[1..], true)
    else (IsUpper(s[0]) || (!start && IsDigit(s[0]))) && Shaped(s[1..], false)
  }

  lemma {:induction false} PascalIsScan(s: string)
    ensures Pascal(s) == Scan(s, true)
    ensures Lowercase(Split(s)[0]) + Collect(Split(s)[1..]) == Scan(s, false)
  {
    if s == "" {
    } else {
      PascalIsScan(s[1..]);
      var words, rest := Split(s), Split(s[1..]);
      assert words[0][..] == if s[0] == '_' then "" else [s[0]] + rest[0];
      assert words[1..] == if s[0] == '_' then rest else rest[1..];
      if s[0] != '_' {
        assert words[0][1..] == rest[0];
      }
    }
  }

  lemma {:induction false} ScanShape(s: string, start: bool)
    ensures Ascii(Scan(s, start)) <==> Ascii(s)
    ensures Scan(s, start) != "" && IsDigit(Scan(s, start)[0]) <==> DigitFirst(s)
  {
    if s != "" {
      ScanShape(s[1..], s[0] == '_');
      AsciiCons(s[0], s[1..]);
      assert s == [s[0]] + s[1..];
      AsciiCons(if start then ToUpper(s[0]) else ToLower(s[0]), Scan(s[1..], false));
    }
  }

  lemma AsciiCons(c: char, t: string)
    ensures Ascii([c] + t) <==> IsNameChar(c) && Ascii(t)
  {
    var s := [c] + t;
    assert s[0] == c && forall i :: 0 <= i < |t| ==> s[i + 1] == t[i];
  }

  /** A name has aliases if and only if it consists of identifier characters and no digit comes first once its leading
      underscores are gone; either both strings are identifiers or neither is. */
  lemma HasAliasesIff(name: string)
    ensures HasAliases(name) <==> Ascii(name) && !DigitFirst(name)
    ensures IsIdentifier(InputAlias(name)) <==> IsIdentifier(OutputAlias(name))
  {
    Suffixes();
    PascalShape(name);
    SuffixedIdentifier(Pascal(name), "Input");
    SuffixedIdentifier(Pascal(name), "Output");
  }

  lemma Suffixes()
    ensures IsIdentifier("Input") && IsIdentifier("Output")
  {
  }

  lemma PascalShape(name: string)
    ensures Ascii(Pascal(name)) <==> Ascii(name)
    ensures Pascal(name) != "" && IsDigit(Pascal(name)[0]) <==> DigitFirst(name)
  {
    PascalIsScan(name);
    ScanShape(name, true);
  }

  lemma SuffixedIdentifier(p: string, suffix: string)
    requires IsIdentifier(suffix)
    ensures IsIdentifier(p + suffix) <==> Ascii(p) && (p == "" || !IsDigit(p[0]))
  {
    var s := p + suffix;
    assert Ascii(s) ==> forall i :: 0 <= i < |p| ==> p[i] == s[i];
    assert Ascii(p) ==> forall i :: 0 <= i < |s| ==> s[i] == if i < |p| then p[i] else suffix[i - |p|];
    assert s[0] == if p == "" then suffix[0] else p[0];
  }

  /** A valid constant name without aliases: the derived string starts with a digit. */
  lemma UnderscoreDigitHasNone()
    ensures IsIdentifier("_1") && InputAlias("_1") == "1Input" && !HasAliases("_1")
  {
    PascalIsScan("_1");
    assert Scan("_1", true) == "1";
  }

  lemma {:induction false} ScanJoined(a: string, b: string, start: bool)
    ensures Scan(a + "_" + b, start) == Scan(a, start) + Scan(b, true)
  {
    var s := a + "_" + b;
    if a == "" {
      assert s[1..] == b;
    } else {
      assert s[1..] == a[1..] + "_" + b;
      ScanJoined(a[1..], b, a[0] == '_');
    }
  }

  /** The derivation works word by word: aliases of names joined by an underscore are concatenated, and a
      single word keeps its first letter in upper case and the rest in lower case. */
  lemma WordByWord(a: string, b: string, word: string)
    ensures Pascal(a + "_" + b) == Pascal(a) + Pascal(b)
    ensures '_' !in word && word != "" ==> Pascal(word) == [ToUpper(word[0])] + Lowercase(word[1..])
  {
    PascalIsScan(a + "_" + b);
    PascalIsScan(a);
    PascalIsScan(b);
    ScanJoined(a, b, true);
    if '_' !in word && word != "" {
      OneWord(word[1..]);
      PascalIsScan(word);
    }
  }

  lemma {:induction false} OneWord(s: string)
    requires '_' !in s
    ensures Scan(s, false) == Lowercase(s)
  {
    if s != "" {
      OneWord(s[1..]);
    }
  }

  /** The tail of a good word. */
  predicate GoodTail(word: string) {
    forall i :: 0 <= i < |word| ==> IsUpper(word[i]) || IsDigit(word[i])
  }

  lemma GoodWordsCons(word: string, words: seq<string>)
    ensures GoodWords([word] + words) <==> GoodWord(word) && GoodWords(words)
  {
    var all := [word] + words;
    assert all[0] == word && forall i :: 0 <= i < |words| ==> all[i + 1] == words[i];
  }

  lemma GoodWordCons(c: char, word: string)
    ensures GoodWord([c] + word) <==> IsUpper(c) && GoodTail(word)
    ensures GoodTail([c] + word) <==> (IsUpper(c) || IsDigit(c)) && GoodTail(word)
  {
    var w := [c] + word;
    assert w[0] == c && forall i :: 0 <= i < |word| ==> w[i + 1] == word[i];
  }

  lemma {:induction false} WellFormedIsShaped(s: string)
    ensures GoodWords(Split(s)) <==> Shaped(s, true)
    ensures GoodTail(Split(s)[0]) && GoodWords(Split(s)[1..]) <==> Shaped(s, false)
  {
    if s == "" {
      assert Split(s)[0] == "";
    } else {
      WellFormedIsShaped(s[1..]);
      var rest := Split(s[1..]);
      if s[0] == '_' {
        GoodWordsCons("", rest);
        assert ([""] + rest)[1..] == rest;
      } else {
        GoodWordCons(s[0], rest[0]);
        GoodWordsCons([s[0]] + rest[0], rest[1..]);
        assert Split(s)[1..] == rest[1..] && rest == [rest[0]] + rest[1..];
        GoodWordsCons(rest[0], rest[1..]);
      }
    }
  }

  lemma {:induction false} NormalIsRescan(s: string, first: bool)
    ensures Rejoin(Split(s), first) == Rescan(s, true, first)
    decreases s
  {
    if s != "" {
      var words, rest := Split(s), Split(s[1..]);
      if s[0] == '_' {
        NormalIsRescan(s[1..], first);
        assert words[1..] == rest;
      } else {
        RestOfWord(s[1..]);
        assert words[1..] == rest[1..];
        OneWordMore(s[0], rest[0], Rejoin(rest[1..], false), if first || IsDigit(s[0]) then "" else "_");
      }
    }
  }

  lemma {:induction false} RestOfWord(s: string)
    ensures Uppercase(Split(s)[0]) + Rejoin(Split(s)[1..], false) == Rescan(s, false, false)
    decreases s
  {
    if s != "" {
      var words, rest := Split(s), Split(s[1..]);
      if s[0] == '_' {
        NormalIsRescan(s[1..], false);
        assert words[1..] == rest;
      } else {
        RestOfWord(s[1..]);
        assert words[1..] == rest[1..];
        OneWordMore(s[0], rest[0], Rejoin(rest[1..], false), "");
      }
    }
  }

  lemma OneWordMore(c: char, word: string, others: string, prefix: string)
    ensures Uppercase([c] + word) == [ToUpper(c)] + Uppercase(word)
    ensures Uppercase([c] + word) + others == [ToUpper(c)] + (Uppercase(word) + others)
    ensures prefix + Uppercase([c] + word) + others == prefix + [ToUpper(c)] + (Uppercase(word) + others)
  {
    assert ([c] + word)[1..] == word;
    assert [ToUpper(c)] + Uppercase(word) + others == [ToUpper(c)] + (Uppercase(word) + others);
    assert prefix + ([ToUpper(c)] + Uppercase(word)) + others == prefix + [ToUpper(c)] + (Uppercase(word) + others);
  }

  lemma {:induction false} UndoneScan(s: string, start: bool, first: bool)
    requires Ascii(s)
    ensures Unpascal(Scan(s, start), first) == Rescan(s, start, first)
  {
    if s == "" {
    } else {
      UndoneScan(s[1..], s[0] == '_', s[0] == '_' && first);
    }
  }

  lemma {:induction false} ScannedAgain(s: string, start: bool, first: bool)
    requires Ascii(s) && (first ==> start)
    ensures Scan(Rescan(s, start, first), first) == Scan(s, start)
  {
    if s == "" {
    } else if s[0] == '_' {
      ScannedAgain(s[1..], true, first);
    } else {
      ScannedAgain(s[1..], false, false);
      var tail := [ToUpper(s[0])] + Rescan(s[1..], false, false);
      if start && !first && !IsDigit(s[0]) {
        assert ("_" + tail)[1..] == tail;
      }
    }
  }

  /** Undoing the derivation gives a name's normal form, and the normal form has the name's alias. */
  lemma NormalForm(name: string)
    requires Ascii(name)
    ensures Unpascal(Pascal(name), true) == Normal(name)
    ensures Pascal(Normal(name)) == Pascal(name)
  {
    PascalIsScan(name);
    PascalIsScan(Normal(name));
    NormalIsRescan(name, true);
    UndoneScan(name, true, true);
    ScannedAgain(name, true, true);
  }

  /** Which derived strings collide: exactly those of names with one normal form. */
  lemma AliasesCollideIff(a: string, b: string)
    requires Ascii(a) && Ascii(b)
    ensures InputAlias(a) == InputAlias(b) <==> Normal(a) == Normal(b)
    ensures OutputAlias(a) == OutputAlias(b) <==> Normal(a) == Normal(b)
  {
    NormalForm(a);
    NormalForm(b);
    SuffixDropped(Pascal(a), Pascal(b), "Input");
    SuffixDropped(Pascal(a), Pascal(b), "Output");
  }

  lemma SuffixDropped(p: string, q: string, suffix: string)
    ensures p + suffix == q + suffix <==> p == q
  {
    if p + suffix == q + suffix {
      assert p == (p + suffix)[..|p|] && q == (q + suffix)[..|q|];
    }
  }

  /** No input alias is anybody's output alias. */
  lemma InputIsNotOutput(a: string, b: string)
    ensures InputAlias(a) != OutputAlias(b)
  {
    var x, y := InputAlias(a), OutputAlias(b);
    assert x[|x| - 5] == 'I' && y[|y| - 5] == 'u';
  }

  /** After its first word, a name is left alone exactly when the rest of it is well-shaped. */
  lemma {:induction false} LeftAlone(s: string)
    requires Ascii(s)
    ensures Rescan(s, false, false) == s <==> Shaped(s, false)
    ensures Rescan(s, true, false) == "_" + s <==> Shaped(s, true)
  {
    if s == "" {
    } else {
      var c, t := s[0], s[1..];
      LeftAlone(t);
      assert s == [c] + t;
      if c != '_' {
        HeadAndTail(ToUpper(c), Rescan(t, false, false), c, t);
        assert ("_" + s)[1..] == s;
      }
    }
  }

  lemma HeadAndTail(c: char, s: string, d: char, t: string)
    ensures [c] + s == [d] + t <==> c == d && s == t
    ensures "_" + [c] + s == "_" + ([d] + t) <==> c == d && s == t
  {
    assert ([c] + s)[1..] == s && ([d] + t)[1..] == t;
    assert ("_" + [c] + s)[2..] == s && ("_" + ([d] + t))[2..] == t;
    assert ("_" + [c] + s)[1] == c && ("_" + ([d] + t))[1] == d;
  }

  /** The names in normal form are exactly the well-formed ones, and so the names the alias determines: undoing the
      derivation of an ASCII identifier gives it back if and only if it is in SCREAMING_SNAKE_CASE. */
  lemma RecoverableIff(name: string)
    requires IsIdentifier(name)
    ensures Normal(name) == name <==> WellFormed(name)
    ensures Unpascal(Pascal(name), true) == name <==> WellFormed(name)
  {
    NormalForm(name);
    NormalIsRescan(name, true);
    WellFormedIsShaped(name);
    var c, t := name[0], name[1..];
    assert name == [c] + t;
    LeftAlone(t);
    HeadAndTail(ToUpper(c), Rescan(t, false, false), c, t);
  }

  /** Distinct well-formed constants never share an alias. */
  lemma AliasesDistinct(a: string, b: string)
    requires IsIdentifier(a) && IsIdentifier(b) && WellFormed(a) && WellFormed(b)
    ensures InputAlias(a) == InputAlias(b) <==> a == b
    ensures OutputAlias(a) == OutputAlias(b) <==> a == b
  {
    RecoverableIff(a);
    RecoverableIff(b);
    AliasesCollideIff(a, b);
  }

  /** The two letter cases, letter by letter; nothing else changes. */
  lemma CaseTables(k: nat, c: char)
    requires k < 26
    ensures ToLower("ABCDEFGHIJKLMNOPQRSTUVWXYZ"[k]) == "abcdefghijklmnopqrstuvwxyz"[k]
    ensures ToUpper("abcdefghijklmnopqrstuvwxyz"[k]) == "ABCDEFGHIJKLMNOPQRSTUVWXYZ"[k]
    ensures c !in "ABCDEFGHIJKLMNOPQRSTUVWXYZ" ==> ToLower(c) == c
    ensures c !in "abcdefghijklmnopqrstuvwxyz" ==> ToUpper(c) == c
  {
    var upper, lower := "ABCDEFGHIJKLMNOPQRSTUVWXYZ", "abcdefghijklmnopqrstuvwxyz";
    if IsUpper(c) {
      assert upper[c as int - 'A' as int] == c;
    }
    if IsLower(c) {
      assert lower[c as int - 'a' as int] == c;
    }
  }

  /** Three ways to collide: a word that starts with a digit, an empty word, a lower-case letter. */
  lemma DigitWordCollides()
    ensures InputAlias("A_2") == InputAlias("A2") && Normal("A_2") == "A2"
  {
    PascalIsScan("A_2");
    PascalIsScan("A2");
    assert Scan("A_2", true) == "A2" && Scan("A2", true) == "A2";
    NormalIsRescan("A_2", true);
    assert Rescan("A_2", true, true) == "A2";
  }

  lemma EmptyWordCollides()
    ensures InputAlias("A__B") == InputAlias("A_B") && InputAlias("_A") == InputAlias("A")
  {
    PascalIsScan("A__B");
    PascalIsScan("A_B");
    assert Scan("A__B", true) == "AB" && Scan("A_B", true) == "AB";
    PascalIsScan("_A");
    PascalIsScan("A");
    assert Scan("_A", true) == "A" && Scan("A", true) == "A";
  }

  lemma CaseCollides()
    ensures InputAlias("ab") == InputAlias("AB")
  {
    PascalIsScan("ab");
    PascalIsScan("AB");
    assert Scan("ab", true) == "Ab" && Scan("AB", true) == "Ab";
  }
}

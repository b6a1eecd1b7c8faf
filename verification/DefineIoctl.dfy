/** The front end of `define_ioctl!`: parsing its arguments and resolving them to a control code. */
module DefineIoctl {
  import opened Options
  import opened Ioctl
  import opened AliasNames

  /** One token of the macro's input. An expression or a type that is not a plain identifier is one token. */
  datatype Token =
    | Ident(name: string)
    | ExprToken(text: string)
    | TypeToken(text: string)
    | Comma
    | FatArrow
    | Equals
  {
    predicate IsExpr() {
      Ident? || ExprToken?
    }

    predicate IsType() {
      Ident? || TypeToken?
    }
  }

  datatype Args = Args(constName: string, deviceType: Token, func: Token, inputType: Token, outputType: Token,
                       transfer: Option<string>, access: Option<string>)
  {
    predicate Sorted() {
      deviceType.IsExpr() && func.IsExpr() && inputType.IsType() && outputType.IsType()
    }
  }

  datatype Error =
    | ExpectedIdent | ExpectedComma | ExpectedExpr | ExpectedType | ExpectedFatArrow | ExpectedEquals
    | MethodTwice | AccessTwice | UnknownKey(key: string) | UnexpectedToken
    | UnknownMethod(name: string) | UnknownAccess(name: string) | NotAnIdentifier(alias: string)

  datatype Result<+T> = Ok(value: T) | Err(error: Error)

  // ----- the grammar, as a printer

  function Header(a: Args): seq<Token> {
    [Ident(a.constName), Comma, a.deviceType, Comma, a.func, Comma, a.inputType, FatArrow, a.outputType]
  }

  /** An option: its key and its value. */
  type Pair = (string, string)

  /** The four tokens of an option. */
  function OptionToken(option: Pair, j: nat): Token {
    if j == 0 then Comma else if j == 1 then Ident(option.0) else if j == 2 then Equals else Ident(option.1)
  }

  function OptionTokens(options: seq<Pair>): (t: seq<Token>)
    ensures |t| == 4 * |options|
  {
    seq(4 * |options|, j requires 0 <= j < 4 * |options| => OptionToken(options[j / 4], j % 4))
  }

  /** The options of `a` that are present, in either order. */
  function Given(a: Args, accessFirst: bool): seq<Pair> {
    var m := if a.transfer.Some? then [("method", a.transfer.value)] else [];
    var acc := if a.access.Some? then [("access", a.access.value)] else [];
    if accessFirst then acc + m else m + acc
  }

  /** The ways of writing an invocation: the options in either order, with or without a last comma. */
  function Print(a: Args, accessFirst: bool, trailing: bool): seq<Token> {
    Header(a) + OptionTokens(Given(a, accessFirst)) + if trailing then [Comma] else []
  }

  ghost predicate Derives(tokens: seq<Token>, a: Args) {
    a.Sorted() && exists accessFirst: bool, trailing: bool :: tokens == Print(a, accessFirst, trailing)
  }

  // ----- the parser

  /** The shape every invocation starts with. */
  predicate HeaderShape(t: seq<Token>) {
    && |t| >= 9 && t[0].Ident? && t[1] == Comma && t[2].IsExpr() && t[3] == Comma && t[4].IsExpr() && t[5] == Comma
    && t[6].IsType() && t[7] == FatArrow && t[8].IsType()
  }

  /** What may follow at position `i`, once `a` has been read: the end, a last comma, or an option not yet given. */
  predicate Continues(t: seq<Token>, i: nat, a: Args)
    requires i <= |t|
  {
    || i == |t|
    || (t[i] == Comma &&
        (i + 1 == |t|
         || (i + 4 <= |t| && t[i + 2] == Equals && t[i + 3].Ident?
             && ((t[i + 1] == Ident("method") && a.transfer == None)
                 || (t[i + 1] == Ident("access") && a.access == None)))))
  }

  /** Position `k` holds what an invocation needs there. */
  predicate HeaderAt(t: seq<Token>, k: nat)
    requires k < 9
  {
    k < |t| &&
    match k
    case 0 => t[k].Ident?
    case 2 | 4 => t[k].IsExpr()
    case 6 | 8 => t[k].IsType()
    case 7 => t[k] == FatArrow
    case _ => t[k] == Comma
  }

  /** What the parser says is missing at position `k`. */
  function Expected(k: nat): Error
    requires k < 9
  {
    match k
    case 0 => ExpectedIdent
    case 2 | 4 => ExpectedExpr
    case 6 | 8 => ExpectedType
    case 7 => ExpectedFatArrow
    case _ => ExpectedComma
  }

  /** The error names what is missing at the first wrong position. */
  function HeaderError(t: seq<Token>): (r: Result<Args>)
    requires !HeaderShape(t)
    ensures exists k: nat ::
              k < 9 && !HeaderAt(t, k) && (forall j: nat :: j < k ==> HeaderAt(t, j)) && r == Err(Expected(k))
  {
    if |t| < 1 || !t[0].Ident? then assert !HeaderAt(t, 0); Err(ExpectedIdent)
    else if |t| < 2 || t[1] != Comma then assert !HeaderAt(t, 1); Err(ExpectedComma)
    else if |t| < 3 || !t[2].IsExpr() then assert !HeaderAt(t, 2); Err(ExpectedExpr)
    else if |t| < 4 || t[3] != Comma then assert !HeaderAt(t, 3); Err(ExpectedComma)
    else if |t| < 5 || !t[4].IsExpr() then assert !HeaderAt(t, 4); Err(ExpectedExpr)
    else if |t| < 6 || t[5] != Comma then assert !HeaderAt(t, 5); Err(ExpectedComma)
    else if |t| < 7 || !t[6].IsType() then assert !HeaderAt(t, 6); Err(ExpectedType)
    else if |t| < 8 || t[7] != FatArrow then assert !HeaderAt(t, 7); Err(ExpectedFatArrow)
    else assert !HeaderAt(t, 8); Err(ExpectedType)
  }

  lemma OnlyHeaderShape(t: seq<Token>)
    requires !HeaderShape(t)
    ensures forall a :: !Derives(t, a)
  {
    forall a: Args, accessFirst: bool, trailing: bool | a.Sorted()
      ensures HeaderShape(Print(a, accessFirst, trailing))
    {
    }
  }

  /** Two printings that share a prefix share the header and the options printed in it. */
  lemma SamePrefix(t: seq<Token>, h1: seq<Token>, p1: seq<Pair>, h2: seq<Token>, p2: seq<Pair>)
    requires |h1| == |h2| == 9 && |p1| <= |p2|
    requires h1 + OptionTokens(p1) <= t && h2 + OptionTokens(p2) <= t
    ensures h1 == h2 && p1 == p2[..|p1|]
  {
    assert h1 == t[..9] && h2 == t[..9];
    forall k | 0 <= k < |p1|
      ensures p1[k] == p2[k]
    {
      SamePair(t, h1, p1, h2, p2, k);
    }
  }

  lemma SamePair(t: seq<Token>, h1: seq<Token>, p1: seq<Pair>, h2: seq<Token>, p2: seq<Pair>, k: nat)
    requires |h1| == |h2| == 9 && k < |p1| <= |p2|
    requires h1 + OptionTokens(p1) <= t && h2 + OptionTokens(p2) <= t
    ensures p1[k] == p2[k]
  {
    TokenOfPrefix(t, h1, p1, k);
    TokenOfPrefix(t, h2, p2, k);
  }

  /** The four tokens of `option` stand at position `i`. */
  predicate OptionShown(t: seq<Token>, i: nat, option: Pair) {
    i + 4 <= |t| && t[i] == Comma && t[i + 1] == Ident(option.0) && t[i + 2] == Equals && t[i + 3] == Ident(option.1)
  }

  /** The tokens of the option number `k`, after a header of nine tokens. */
  lemma TokenOfPrefix(t: seq<Token>, h: seq<Token>, p: seq<Pair>, k: nat)
    requires |h| == 9 && k < |p| && h + OptionTokens(p) <= t
    ensures OptionShown(t, 9 + 4 * k, p[k])
  {
    var i, options := 9 + 4 * k, OptionTokens(p);
    assert t[i] == options[4 * k] && t[i + 1] == options[4 * k + 1]
           && t[i + 2] == options[4 * k + 2] && t[i + 3] == options[4 * k + 3];
  }

  lemma PrintedPrefix(a: Args, accessFirst: bool, trailing: bool)
    ensures var p, t := Given(a, accessFirst), Print(a, accessFirst, trailing);
            |t| == 9 + 4 * |p| + (if trailing then 1 else 0) && Header(a) + OptionTokens(p) <= t
  {
  }

  lemma HeaderDetermines(a: Args, b: Args)
    requires Header(a) == Header(b)
    ensures a == b.(transfer := a.transfer, access := a.access)
  {
    assert Header(a)[0] == Header(b)[0] && Header(a)[2] == Header(b)[2] && Header(a)[4] == Header(b)[4]
           && Header(a)[6] == Header(b)[6] && Header(a)[8] == Header(b)[8];
  }

  function Lookup(options: seq<Pair>, key: string): Option<string> {
    if options == [] then None
    else if options[0].0 == key then Some(options[0].1)
    else Lookup(options[1..], key)
  }

  lemma OptionsFound(a: Args, accessFirst: bool)
    ensures Lookup(Given(a, accessFirst), "method") == a.transfer
    ensures Lookup(Given(a, accessFirst), "access") == a.access
  {
    assert "method"[0] != "access"[0];
    var p := Given(a, accessFirst);
    if p != [] {
      assert p[1..] == if |p| == 1 then [] else [p[1]];
    }
  }

  /** The grammar is unambiguous. */
  lemma Unambiguous(t: seq<Token>, a: Args, b: Args)
    requires Derives(t, a) && Derives(t, b)
    ensures a == b
  {
    var fa, ca :| t == Print(a, fa, ca);
    var fb, cb :| t == Print(b, fb, cb);
    var pa, pb := Given(a, fa), Given(b, fb);
    PrintedPrefix(a, fa, ca);
    PrintedPrefix(b, fb, cb);
    SamePrefix(t, Header(a), pa, Header(b), pb);
    assert pb[..|pa|] == pb;
    HeaderDetermines(a, b);
    OptionsFound(a, fa);
    OptionsFound(b, fb);
  }

  /** If what has been read is `a` and the next tokens are neither the end nor a fresh option, no continuation
      of the grammar fits. */
  lemma OnlyContinues(t: seq<Token>, i: nat, a: Args, accessFirst: bool)
    requires i <= |t| && t[..i] == Print(a, accessFirst, false) && !Continues(t, i, a)
    ensures forall b :: !Derives(t, b)
  {
    forall b: Args, fb: bool, cb: bool
      ensures t == Print(b, fb, cb) ==> Continues(t, i, a)
    {
      if t == Print(b, fb, cb) {
        Continued(t, i, a, accessFirst, b, fb, cb);
      }
    }
  }

  lemma Continued(t: seq<Token>, i: nat, a: Args, fa: bool, b: Args, fb: bool, cb: bool)
    requires i <= |t| && t[..i] == Print(a, fa, false) && t == Print(b, fb, cb)
    ensures Continues(t, i, a)
  {
    var pa, pb := Given(a, fa), Given(b, fb);
    var k := |pa|;
    PrintedPrefix(a, fa, false);
    PrintedPrefix(b, fb, cb);
    SamePrefix(t, Header(a), pa, Header(b), pb);
    NextTokens(t, b, fb, cb, k);
    if k < |pb| {
      FreshKey(a, fa, b, fb);
    }
  }

  /** What follows the first `k` options of a printing. */
  lemma NextTokens(t: seq<Token>, b: Args, fb: bool, cb: bool, k: nat)
    requires t == Print(b, fb, cb) && k <= |Given(b, fb)|
    ensures var pb, i := Given(b, fb), 9 + 4 * k;
            if k < |pb| then i + 4 <= |t| && t[i] == Comma && t[i + 1] == Ident(pb[k].0)
                             && t[i + 2] == Equals && t[i + 3] == Ident(pb[k].1)
            else if cb then i + 1 == |t| && t[i] == Comma
            else i == |t|
  {
    var pb, i := Given(b, fb), 9 + 4 * k;
    PrintedPrefix(b, fb, cb);
    if k < |pb| {
      TokenOfPrefix(t, Header(b), pb, k);
    }
  }

  /** The next option of a longer list is one the shorter list does not have. */
  lemma FreshKey(a: Args, fa: bool, b: Args, fb: bool)
    requires var pa, pb := Given(a, fa), Given(b, fb); |pa| < |pb| && pa == pb[..|pa|]
    ensures var key := Given(b, fb)[|Given(a, fa)|].0;
            (key == "method" && a.transfer == None) || (key == "access" && a.access == None)
  {
    assert "method" != "access" by {
      assert "method"[0] != "access"[0];
    }
    var pa, pb := Given(a, fa), Given(b, fb);
    if |pa| == 1 {
      assert pa[0] == pb[0];
    }
  }

  /** One more option read: the prefix is the printing of the extended arguments, this option last. */
  lemma OptionRead(t: seq<Token>, i: nat, a: Args, accessFirst: bool)
    requires i + 4 <= |t| && t[..i] == Print(a, accessFirst, false)
    requires t[i] == Comma && t[i + 1].Ident? && t[i + 2] == Equals && t[i + 3].Ident?
    ensures t[i + 1].name == "method" && a.transfer == None ==>
              t[..i + 4] == Print(a.(transfer := Some(t[i + 3].name)), true, false)
    ensures t[i + 1].name == "access" && a.access == None ==>
              t[..i + 4] == Print(a.(access := Some(t[i + 3].name)), false, false)
  {
    var p, key, value := Given(a, accessFirst), t[i + 1].name, t[i + 3].name;
    assert t[..i + 4] == t[..i] + [t[i], t[i + 1], t[i + 2], t[i + 3]];
    assert (p + [(key, value)])[..|p|] == p;
    assert t[..i + 4] == Header(a) + OptionTokens(p + [(key, value)]);
    if key == "method" && a.transfer == None {
      assert Given(a.(transfer := Some(value)), true) == p + [(key, value)];
    }
    if key == "access" && a.access == None {
      assert Given(a.(access := Some(value)), false) == p + [(key, value)];
    }
  }

  lemma LastComma(a: Args, accessFirst: bool)
    ensures Print(a, accessFirst, true) == Print(a, accessFirst, false) + [Comma]
  {
  }

  /** The `k`-th token after the comma at position `i` is what an option has there: a key, an equals sign, a value. */
  predicate OptionAt(t: seq<Token>, i: nat, k: nat) {
    i + k < |t| && if k == 2 then t[i + k] == Equals else t[i + k].Ident?
  }

  /** What is wrong with the option after the comma at position `i`, once `a` has been read: the first token an option
      does not have there; or, for a whole option, its key. */
  ghost predicate OptionFault(t: seq<Token>, i: nat, a: Args, e: Error) {
    if OptionAt(t, i, 1) && OptionAt(t, i, 2) && OptionAt(t, i, 3) then
      var key := t[i + 1].name;
      if key == "method" then a.transfer.Some? && e == MethodTwice
      else if key == "access" then a.access.Some? && e == AccessTwice
      else e == UnknownKey(key)
    else
      exists k: nat ::
        && 1 <= k < 4 && !OptionAt(t, i, k) && (forall j: nat :: 1 <= j < k ==> OptionAt(t, i, j))
        && e == if k == 2 then ExpectedEquals else ExpectedIdent
  }

  /** `e` says what is wrong where the tokens stop being the beginning of an invocation: the first `i` of them print
      `a`, and what follows is no continuation. */
  ghost predicate Stuck(t: seq<Token>, i: nat, a: Args, accessFirst: bool, e: Error) {
    && i <= |t| && a.Sorted() && t[..i] == Print(a, accessFirst, false) && !Continues(t, i, a)
    && if t[i] == Comma then OptionFault(t, i, a, e) else e == UnexpectedToken
  }

  ghost predicate Rejects(t: seq<Token>, e: Error) {
    exists i: nat, a, accessFirst :: Stuck(t, i, a, accessFirst, e)
  }

  /** Where a longer part of the tokens is the beginning of an invocation, a shorter one is not the end of it. */
  lemma LongerPrefix(t: seq<Token>, i: nat, a: Args, fa: bool, j: nat, b: Args, fb: bool)
    requires i < j <= |t| && t[..i] == Print(a, fa, false) && t[..j] == Print(b, fb, false)
    ensures Continues(t, i, a)
  {
    assert t[..j][..i] == t[..i];
    Continued(t[..j], i, a, fa, b, fb, false);
    PrintedPrefix(a, fa, false);
    PrintedPrefix(b, fb, false);
  }

  lemma NoLaterPlace(t: seq<Token>, i: nat, a: Args, fa: bool, e: Error, j: nat, b: Args, fb: bool)
    requires Stuck(t, i, a, fa, e) && j <= |t| && t[..j] == Print(b, fb, false)
    ensures j <= i
  {
    if i < j {
      LongerPrefix(t, i, a, fa, j, b, fb);
    }
  }

  /** There is only one such place and only one such error. */
  lemma StuckOnce(t: seq<Token>, i: nat, a: Args, fa: bool, e: Error, j: nat, b: Args, fb: bool, e': Error)
    requires Stuck(t, i, a, fa, e) && Stuck(t, j, b, fb, e')
    ensures i == j && a == b && e == e'
  {
    NoLaterPlace(t, i, a, fa, e, j, b, fb);
    NoLaterPlace(t, j, b, fb, e', i, a, fa);
    Unambiguous(t[..i], a, b);
  }

  /** So the tokens determine the error. */
  lemma OneError(t: seq<Token>, e: Error, e': Error)
    requires Rejects(t, e) && Rejects(t, e')
    ensures e == e'
  {
    var i: nat, a, fa :| Stuck(t, i, a, fa, e);
    var j: nat, b, fb :| Stuck(t, j, b, fb, e');
    StuckOnce(t, i, a, fa, e, j, b, fb, e');
  }

  lemma Rejected(t: seq<Token>, i: nat, a: Args, accessFirst: bool, e: Error)
    requires Stuck(t, i, a, accessFirst, e)
    ensures Rejects(t, e)
    ensures forall b :: !Derives(t, b)
  {
    OnlyContinues(t, i, a, accessFirst);
  }

  /** One trip of the option loop, from its comma: the arguments with the option added, or the error. */
  method ParseOption(t: seq<Token>, i: nat, a: Args) returns (r: Result<Args>)
    requires i + 1 < |t| && t[i] == Comma
    ensures r.Ok? <==> Continues(t, i, a)
    ensures r.Ok? ==> r.value == if t[i + 1].name == "method" then a.(transfer := Some(t[i + 3].name))
                                 else a.(access := Some(t[i + 3].name))
    ensures r.Err? ==> OptionFault(t, i, a, r.error)
  {
    if !t[i + 1].Ident? {
      assert !OptionAt(t, i, 1);
      return Err(ExpectedIdent);
    }
    var key := t[i + 1].name;
    if i + 2 == |t| || t[i + 2] != Equals {
      assert !OptionAt(t, i, 2);
      return Err(ExpectedEquals);
    }
    if i + 3 == |t| || !t[i + 3].Ident? {
      assert !OptionAt(t, i, 3);
      return Err(ExpectedIdent);
    }
    var value := t[i + 3].name;
    if key == "method" {
      return if a.transfer.Some? then Err(MethodTwice) else Ok(a.(transfer := Some(value)));
    } else if key == "access" {
      return if a.access.Some? then Err(AccessTwice) else Ok(a.(access := Some(value)));
    } else {
      return Err(UnknownKey(key));
    }
  }

  /** The option loop, from the end of the header, and the check that nothing is left over. */
  method ParseOptions(tokens: seq<Token>, header: Args) returns (r: Result<Args>)
    requires |tokens| >= 9 && header.Sorted() && tokens[..9] == Print(header, false, false)
    ensures r.Ok? ==> r.value.Sorted() && exists accessFirst, trailing :: tokens == Print(r.value, accessFirst, trailing)
    ensures r.Err? ==> Rejects(tokens, r.error) && forall a :: !Derives(tokens, a)
  {
    var a, i := header, 9;
    ghost var accessFirst := false;
    while i < |tokens| && tokens[i] == Comma
      invariant 9 <= i <= |tokens| && a.Sorted()
      invariant tokens[..i] == Print(a, accessFirst, false)
    {
      if i + 1 == |tokens| {
        LastComma(a, accessFirst);
        assert tokens == tokens[..i] + [Comma];
        assert tokens == Print(a, accessFirst, true);
        return Ok(a);
      }
      var option := ParseOption(tokens, i, a);
      if option.Err? {
        Rejected(tokens, i, a, accessFirst, option.error);
        return option;
      }
      OptionRead(tokens, i, a, accessFirst);
      a, accessFirst := option.value, tokens[i + 1].name == "method";
      i := i + 4;
    }
    if i < |tokens| {
      Rejected(tokens, i, a, accessFirst, UnexpectedToken);
      return Err(UnexpectedToken);
    }
    assert tokens[..i] == tokens;
    return Ok(a);
  }

  /** `DefineIoctlArgs::parse` under `parse_macro_input!`, which rejects left-over tokens. It accepts exactly the
      grammar and returns what was written; otherwise the error is that of the first place where the tokens stop being
      the beginning of an invocation. */
  method Parse(tokens: seq<Token>) returns (r: Result<Args>)
    ensures forall a :: r == Ok(a) <==> Derives(tokens, a)
    ensures !HeaderShape(tokens) ==> r == HeaderError(tokens)
    ensures HeaderShape(tokens) && r.Err? ==> Rejects(tokens, r.error)
  {
    if !HeaderShape(tokens) {
      OnlyHeaderShape(tokens);
      return HeaderError(tokens);
    }
    r := ParseOptions(tokens, Args(tokens[0].name, tokens[2], tokens[4], tokens[6], tokens[8], None, None));
    if r.Ok? {
      ghost var accessFirst, trailing :| tokens == Print(r.value, accessFirst, trailing);
      Accepted(tokens, r.value, accessFirst, trailing);
    }
  }

  lemma Accepted(t: seq<Token>, a: Args, accessFirst: bool, trailing: bool)
    requires a.Sorted() && t == Print(a, accessFirst, trailing)
    ensures forall b :: Derives(t, b) <==> b == a
  {
    forall b | Derives(t, b)
      ensures b == a
    {
      Unambiguous(t, a, b);
    }
  }

  // ----- the expansion

  function ResolveMethod(name: Option<string>): Result<TransferMethod> {
    if name == None || name == Some("Buffered") then Ok(Buffered)
    else if name == Some("InDirect") then Ok(InDirect)
    else if name == Some("OutDirect") then Ok(OutDirect)
    else if name == Some("Neither") then Ok(Neither)
    else Err(UnknownMethod(name.value))
  }

  function ResolveAccess(name: Option<string>): Result<RequiredAccess> {
    if name == None || name == Some("Any") then Ok(Any)
    else if name == Some("Read") then Ok(Read)
    else if name == Some("Write") then Ok(Write)
    else if name == Some("ReadWrite") then Ok(ReadWrite)
    else Err(UnknownAccess(name.value))
  }

  /** An option resolves to a variant exactly when it names it, or is omitted and the variant is the default; any other
      name is reported. */
  lemma ResolutionExact(name: Option<string>)
    ensures ResolveMethod(name) == Ok(Buffered) <==> name in {None, Some("Buffered")}
    ensures ResolveMethod(name) == Ok(InDirect) <==> name == Some("InDirect")
    ensures ResolveMethod(name) == Ok(OutDirect) <==> name == Some("OutDirect")
    ensures ResolveMethod(name) == Ok(Neither) <==> name == Some("Neither")
    ensures ResolveMethod(name).Err? ==> name.Some? && ResolveMethod(name) == Err(UnknownMethod(name.value))
    ensures ResolveAccess(name) == Ok(Any) <==> name in {None, Some("Any")}
    ensures ResolveAccess(name) == Ok(Read) <==> name == Some("Read")
    ensures ResolveAccess(name) == Ok(Write) <==> name == Some("Write")
    ensures ResolveAccess(name) == Ok(ReadWrite) <==> name == Some("ReadWrite")
    ensures ResolveAccess(name).Err? ==> name.Some? && ResolveAccess(name) == Err(UnknownAccess(name.value))
  {
    assert "Buffered"[0] != "InDirect"[0] && "Buffered"[0] != "OutDirect"[0] && "Buffered"[0] != "Neither"[0];
    assert "InDirect"[0] != "OutDirect"[0] && "InDirect"[0] != "Neither"[0] && "OutDirect"[0] != "Neither"[0];
    assert "Any"[0] != "Read"[0] && "Any"[0] != "Write"[0] && "Any"[0] != "ReadWrite"[0];
    assert "Read"[0] != "Write"[0] && |"Read"| != |"ReadWrite"| && "Write"[0] != "ReadWrite"[0];
  }

  /** The constant and the two type aliases an invocation declares. */
  datatype Expansion = Expansion(constName: string, code: IoControlCode,
                                 inputAlias: string, inputType: Token, outputAlias: string, outputType: Token)

  /** `define_ioctl!` on parsed arguments; `value` is what the compiler evaluates an expression to. The last error is
      a panic, on the input alias, which is derived first. */
  function Expand(a: Args, value: Token -> bv16): Result<Expansion> {
    match ResolveMethod(a.transfer)
    case Err(e) => Err(e)
    case Ok(m) =>
      match ResolveAccess(a.access)
      case Err(e) => Err(e)
      case Ok(acc) =>
        if !HasAliases(a.constName) then Err(NotAnIdentifier(InputAlias(a.constName)))
        else Ok(Expansion(a.constName, New(value(a.deviceType), value(a.func), m, acc),
                          InputAlias(a.constName), a.inputType, OutputAlias(a.constName), a.outputType))
  }

  /** Exactly which invocations expand. The panic is reached for valid constant names too. */
  lemma ExpandsIff(a: Args, value: Token -> bv16)
    ensures Expand(a, value).Ok?
            <==> && a.transfer in {None, Some("Buffered"), Some("InDirect"), Some("OutDirect"), Some("Neither")}
                 && a.access in {None, Some("Any"), Some("Read"), Some("Write"), Some("ReadWrite")}
                 && Ascii(a.constName) && !DigitFirst(a.constName)
  {
    HasAliasesIff(a.constName);
    ResolutionExact(a.transfer);
    ResolutionExact(a.access);
  }

  /** The value of an option as the tokens show it: options start at positions 9 and 13, keys one and values three
      positions later. */
  function OptionIn(t: seq<Token>, key: string): Option<string> {
    if |t| >= 13 && t[10] == Ident(key) && t[12].Ident? then Some(t[12].name)
    else if |t| >= 17 && t[14] == Ident(key) && t[16].Ident? then Some(t[16].name)
    else None
  }

  lemma HeaderFromTokens(t: seq<Token>, a: Args)
    requires Header(a) <= t
    ensures t[1] == t[3] == t[5] == Comma && t[7] == FatArrow
    ensures t[0] == Ident(a.constName) && t[2] == a.deviceType && t[4] == a.func
    ensures t[6] == a.inputType && t[8] == a.outputType
  {
    var h := Header(a);
    assert forall k :: 0 <= k < 9 ==> t[k] == h[k];
  }

  lemma OptionsFromTokens(t: seq<Token>, a: Args, accessFirst: bool, trailing: bool)
    requires t == Print(a, accessFirst, trailing)
    ensures a.transfer == OptionIn(t, "method") && a.access == OptionIn(t, "access")
  {
    PrintedPrefix(a, accessFirst, trailing);
    var p := Given(a, accessFirst);
    assert "method" != "access" by {
      assert "method"[0] != "access"[0];
    }
    if |p| > 0 {
      TokenOfPrefix(t, Header(a), p, 0);
    }
    if |p| > 1 {
      TokenOfPrefix(t, Header(a), p, 1);
    }
  }

  /** Which token each argument comes from. */
  lemma ArgumentsFromTokens(t: seq<Token>, a: Args)
    requires Derives(t, a)
    ensures |t| >= 9 && t[1] == t[3] == t[5] == Comma && t[7] == FatArrow
    ensures t[0] == Ident(a.constName) && t[2] == a.deviceType && t[4] == a.func
    ensures t[6] == a.inputType && t[8] == a.outputType
    ensures a.transfer == OptionIn(t, "method") && a.access == OptionIn(t, "access")
  {
    var accessFirst, trailing :| t == Print(a, accessFirst, trailing);
    HeaderFromTokens(t, a);
    OptionsFromTokens(t, a, accessFirst, trailing);
  }

  /** An option starts at position `i`. */
  predicate FullOption(t: seq<Token>, i: nat) {
    && i + 4 <= |t| && t[i] == Comma && t[i + 2] == Equals && t[i + 3].Ident?
    && t[i + 1] in {Ident("method"), Ident("access")}
  }

  /** The accepted token sequences, position by position: a header, then up to two options with different keys, then
      perhaps one more comma. */
  predicate WellFormed(t: seq<Token>) {
    && HeaderShape(t) && |t| in {9, 10, 13, 14, 17, 18}
    && (|t| >= 13 ==> FullOption(t, 9))
    && (|t| >= 17 ==> FullOption(t, 13) && t[10] != t[14])
    && (|t| in {10, 14, 18} ==> t[|t| - 1] == Comma)
  }

  lemma DerivedWellFormed(t: seq<Token>, a: Args)
    requires Derives(t, a)
    ensures WellFormed(t)
  {
    var accessFirst, trailing :| t == Print(a, accessFirst, trailing);
    var p := Given(a, accessFirst);
    PrintedPrefix(a, accessFirst, trailing);
    HeaderFromTokens(t, a);
    assert "method"[0] != "access"[0];
    if |p| > 0 {
      TokenOfPrefix(t, Header(a), p, 0);
    }
    if |p| > 1 {
      TokenOfPrefix(t, Header(a), p, 1);
    }
  }

  /** The arguments that well-formed tokens show. */
  function Shown(t: seq<Token>): Args
    requires WellFormed(t)
  {
    Args(t[0].name, t[2], t[4], t[6], t[8], OptionIn(t, "method"), OptionIn(t, "access"))
  }

  /** The options those arguments print are the ones the tokens show. */
  lemma ShownOptions(t: seq<Token>, accessFirst: bool, p: seq<Pair>)
    requires WellFormed(t) && accessFirst == (|t| >= 13 && t[10] == Ident("access"))
    requires p == Given(Shown(t), accessFirst)
    ensures |t| == 9 + 4 * |p| + if |t| in {10, 14, 18} then 1 else 0
    ensures forall k :: 0 <= k < |p| ==> OptionShown(t, 9 + 4 * k, p[k])
  {
    assert "method"[0] != "access"[0];
  }

  lemma OptionsPrinted(t: seq<Token>, h: seq<Token>, p: seq<Pair>)
    requires |h| == 9 && h <= t && 9 + 4 * |p| <= |t|
    requires forall k :: 0 <= k < |p| ==> OptionShown(t, 9 + 4 * k, p[k])
    ensures t == h + OptionTokens(p) + t[9 + 4 * |p|..]
  {
    forall j | 0 <= j < 4 * |p|
      ensures t[9 + j] == OptionToken(p[j / 4], j % 4)
    {
      assert OptionShown(t, 9 + 4 * (j / 4), p[j / 4]);
    }
  }

  lemma WellFormedDerived(t: seq<Token>)
    requires WellFormed(t)
    ensures Derives(t, Shown(t))
  {
    var a, accessFirst, trailing := Shown(t), |t| >= 13 && t[10] == Ident("access"), |t| in {10, 14, 18};
    var p := Given(a, accessFirst);
    ShownOptions(t, accessFirst, p);
    OptionsPrinted(t, Header(a), p);
    assert t[9 + 4 * |p|..] == if trailing then [Comma] else [];
    assert t == Print(a, accessFirst, trailing);
  }

  /** The grammar accepts exactly these. */
  lemma AcceptedIff(t: seq<Token>)
    ensures (exists a :: Derives(t, a)) <==> WellFormed(t)
  {
    if WellFormed(t) {
      WellFormedDerived(t);
    }
    forall a | Derives(t, a)
      ensures WellFormed(t)
    {
      DerivedWellFormed(t, a);
    }
  }

  /** An invocation declares what its tokens say: the constant under its name; the first type under the input alias and
      the second under the output alias; and a code whose accessors give back the device type and the function number,
      if that fits, and the named or default transfer method and access. */
  lemma ExpansionDeclares(t: seq<Token>, a: Args, value: Token -> bv16)
    requires Derives(t, a) && Expand(a, value).Ok?
    ensures |t| >= 9 && t[0].Ident?
    ensures var x := Expand(a, value).value;
            && x.constName == t[0].name && x.inputType == t[6] && x.outputType == t[8]
            && x.inputAlias == Pascal(t[0].name) + "Input" && x.outputAlias == Pascal(t[0].name) + "Output"
    ensures var code, named := Expand(a, value).value.code, OptionIn(t, "method");
            && (code.Method() == Buffered <==> named in {None, Some("Buffered")})
            && (code.Method() == InDirect <==> named == Some("InDirect"))
            && (code.Method() == OutDirect <==> named == Some("OutDirect"))
            && (code.Method() == Neither <==> named == Some("Neither"))
    ensures var code, named := Expand(a, value).value.code, OptionIn(t, "access");
            value(t[4]) <= 0x0FFF ==>
              && code.DeviceType() == value(t[2]) && code.Function() == value(t[4])
              && (code.Access() == Any <==> named in {None, Some("Any")})
              && (code.Access() == Read <==> named == Some("Read"))
              && (code.Access() == Write <==> named == Some("Write"))
              && (code.Access() == ReadWrite <==> named == Some("ReadWrite"))
  {
    ArgumentsFromTokens(t, a);
    ResolutionExact(a.transfer);
    ResolutionExact(a.access);
    var m, acc := ResolveMethod(a.transfer).value, ResolveAccess(a.access).value;
    NewDecoded(value(a.deviceType), value(a.func), m, acc);
    RoundTrip(value(a.deviceType), value(a.func), m, acc);
  }

  /** Which error a derivable invocation gets, in this order: the method, the access, the name. */
  lemma ExpansionError(a: Args, value: Token -> bv16)
    ensures ResolveMethod(a.transfer).Err? ==> Expand(a, value) == Err(UnknownMethod(a.transfer.value))
    ensures ResolveMethod(a.transfer).Ok? && ResolveAccess(a.access).Err? ==>
              Expand(a, value) == Err(UnknownAccess(a.access.value))
    ensures ResolveMethod(a.transfer).Ok? && ResolveAccess(a.access).Ok? && !HasAliases(a.constName) ==>
              Expand(a, value) == Err(NotAnIdentifier(Pascal(a.constName) + "Input"))
  {
  }

  /** Two constants that expand share their aliases exactly when they have one normal form. */
  lemma ExpansionsCollideIff(a: Args, b: Args, value: Token -> bv16)
    requires Expand(a, value).Ok? && Expand(b, value).Ok?
    ensures Expand(a, value).value.inputAlias == Expand(b, value).value.inputAlias
            <==> Normal(a.constName) == Normal(b.constName)
    ensures Expand(a, value).value.outputAlias == Expand(b, value).value.outputAlias
            <==> Normal(a.constName) == Normal(b.constName)
    ensures Expand(a, value).value.inputAlias != Expand(b, value).value.outputAlias
  {
    HasAliasesIff(a.constName);
    HasAliasesIff(b.constName);
    AliasesCollideIff(a.constName, b.constName);
    InputIsNotOutput(a.constName, b.constName);
  }

  /** Leaving an option out is writing its documented default. */
  lemma OmittedOptions(a: Args, value: Token -> bv16)
    ensures Expand(a, value)
            == Expand(a.(transfer := if a.transfer == None then Some("Buffered") else a.transfer,
                         access := if a.access == None then Some("Any") else a.access), value)
  {
  }

  /** Two declarations share a control code exactly when their fields, after defaulting, cannot be told apart once
      the bits of an oversized function number have spilled over. */
  lemma CodesCollideIff(a: Args, b: Args, value: Token -> bv16)
    requires Expand(a, value).Ok? && Expand(b, value).Ok?
    ensures var m1, a1 := ResolveMethod(a.transfer).value, ResolveAccess(a.access).value;
            var m2, a2 := ResolveMethod(b.transfer).value, ResolveAccess(b.access).value;
            Expand(a, value).value.code == Expand(b, value).value.code
            <==> Indistinct(value(a.deviceType), value(a.func), m1, a1, value(b.deviceType), value(b.func), m2, a2)
  {
    NewCollidesIff(value(a.deviceType), value(a.func), ResolveMethod(a.transfer).value, ResolveAccess(a.access).value,
                   value(b.deviceType), value(b.func), ResolveMethod(b.transfer).value, ResolveAccess(b.access).value);
  }

  /** So with twelve-bit function numbers all four resolved fields agree. */
  lemma SmallCodesCollideIff(a: Args, b: Args, value: Token -> bv16)
    requires Expand(a, value).Ok? && Expand(b, value).Ok?
    requires value(a.func) <= 0x0FFF && value(b.func) <= 0x0FFF
    ensures Expand(a, value).value.code == Expand(b, value).value.code
            <==> value(a.deviceType) == value(b.deviceType) && value(a.func) == value(b.func)
                 && ResolveMethod(a.transfer) == ResolveMethod(b.transfer)
                 && ResolveAccess(a.access) == ResolveAccess(b.access)
  {
    var ma, mb := ResolveMethod(a.transfer).value, ResolveMethod(b.transfer).value;
    var ca, cb := ResolveAccess(a.access).value, ResolveAccess(b.access).value;
    if New(value(a.deviceType), value(a.func), ma, ca) == New(value(b.deviceType), value(b.func), mb, cb) {
      NewInjective(value(a.deviceType), value(a.func), ma, ca, value(b.deviceType), value(b.func), mb, cb);
    }
  }
}

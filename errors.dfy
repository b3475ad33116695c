/** The assembler's error taxonomy (assembler/error.ts): syntax, type and
    reference errors, each carrying the token it is about, and the
    messages printed for them. */
module Errors {
  import opened Wrappers
  import opened Text
  import opened Tokens

  /** `ParseError`; the three constructors are `unexpectedToken`,
      `typeError` and `referenceError`. */
  datatype ParseError =
    | SyntaxError(token: Token)
    | TypeError(token: Token, message: string)
    | ReferenceError(token: Token)

  /** What the assemblers throw: a `ParseError`, or a plain `Error` with a
      message (a JavaScript runtime TypeError is one of these too). */
  datatype Failure = Parse(error: ParseError) | Plain(message: string)

  /** The `type` tag of an error object. */
  function Tag(e: ParseError): string {
    match e
    case SyntaxError(_) => "syntax_error"
    case TypeError(_, _) => "type_error"
    case ReferenceError(_) => "reference_error"
  }

  /** A thrown value as `isParseError` sees it: `null`/`undefined`, or an
      object with or without a string `type` property. */
  datatype Thrown = Nullish | Object(tag: Option<string>)

  function AsThrown(e: ParseError): Thrown {
    Object(Some(Tag(e)))
  }

  /** `isParseError(error)`: None where the call itself throws. The first
      test uses `?.` but the other two do not, so a nullish value makes the
      second test read a property of `undefined`. */
  function IsParseError(x: Thrown): Option<bool> {
    match x
    case Nullish => None
    case Object(tag) =>
      Some(tag == Some("syntax_error") || tag == Some("reference_error") || tag == Some("type_error"))
  }

  /** Each constructor builds its own kind of error, with its own tag, and
      `isParseError` holds of an object exactly when its tag is one of the
      three; it is defined for every non-nullish value. */
  lemma TagsCharacterizeParseErrors(e: ParseError, x: Thrown)
    ensures IsParseError(AsThrown(e)) == Some(true)
    ensures x.Object? ==> (IsParseError(x) == Some(true) <==> exists e': ParseError :: x == AsThrown(e'))
    ensures IsParseError(x).None? <==> x.Nullish?
    ensures forall e1: ParseError, e2: ParseError :: Tag(e1) == Tag(e2) <==>
      (e1.SyntaxError? && e2.SyntaxError?) || (e1.TypeError? && e2.TypeError?) || (e1.ReferenceError? && e2.ReferenceError?)
  {
    if x.Object? && IsParseError(x) == Some(true) {
      var t := Token(Eof, "", "", 0, 0);
      if x.tag == Some("syntax_error") {
        assert x == AsThrown(SyntaxError(t));
      } else if x.tag == Some("type_error") {
        assert x == AsThrown(TypeError(t, ""));
      } else {
        assert x == AsThrown(ReferenceError(t));
      }
    }
  }

  /** `${filename}:${line}:${col}` */
  function Location(t: Token): string {
    t.filename + ":" + NatToString(t.line) + ":" + NatToString(t.col)
  }

  /** `getErrorMessage(error)` */
  function ErrorMessage(e: ParseError): string {
    match e
    case SyntaxError(t) => "unexpected token: '" + FirstLine(t.value) + "' at " + Location(t)
    case TypeError(t, m) => "type error: '" + m + "' at " + Location(t)
    case ReferenceError(t) => "reference error: no definition found for '" + t.value + "' at " + Location(t)
  }

  /** The fixed opening of each kind's message. */
  function KindPrefix(e: ParseError): string {
    match e
    case SyntaxError(_) => "unexpected token: '"
    case TypeError(_, _) => "type error: '"
    case ReferenceError(_) => "reference error: no definition found for '"
  }

  /** What each kind's message quotes: the first line of the token's
      value, the stored message, or the whole token value. */
  function Quoted(e: ParseError): string {
    match e
    case SyntaxError(t) => FirstLine(t.value)
    case TypeError(_, msg) => msg
    case ReferenceError(t) => t.value
  }

  /** Every message opens with its kind's prefix followed by the quoted
      text, and ends with the token's location. */
  lemma MessageShape(e: ParseError)
    ensures StartsWith(ErrorMessage(e), KindPrefix(e) + Quoted(e))
    ensures StartsWith(ErrorMessage(e), KindPrefix(e))
    ensures EndsWith(ErrorMessage(e), Location(e.token))
    ensures ErrorMessage(e)[0] == KindPrefix(e)[0]
  {
    var l := Location(e.token);
    var p := KindPrefix(e);
    var q := Quoted(e);
    ConcatShape(p, q);
    ConcatShape(p + q, "' at ");
    ConcatShape(p + q + "' at ", l);
    assert ErrorMessage(e) == p + q + "' at " + l;
  }

  lemma ConcatShape(a: string, b: string)
    requires a != []
    ensures StartsWith(a + b, a) && EndsWith(a + b, b) && (a + b)[0] == a[0]
    ensures forall p :: StartsWith(a, p) ==> StartsWith(a + b, p)
  {
    assert (a + b)[..|a|] == a;
    assert (a + b)[|a + b| - |b|..] == b;
    forall p | StartsWith(a, p) ensures StartsWith(a + b, p) {
      assert (a + b)[..|p|] == a[..|p|];
    }
  }

  /** Errors of different kinds never print the same message. */
  lemma MessagesTellKinds(e1: ParseError, e2: ParseError)
    requires Tag(e1) != Tag(e2)
    ensures ErrorMessage(e1) != ErrorMessage(e2)
  {
    MessageShape(e1);
    MessageShape(e2);
  }

  /** A syntax error quotes only the first line of its token: what follows
      the first newline of the value does not change the message. */
  lemma {:induction false} SyntaxMessageFirstLineOnly(t: Token, rest: string)
    requires '\n' !in t.value
    ensures ErrorMessage(SyntaxError(t.(value := t.value + "\n" + rest))) == ErrorMessage(SyntaxError(t))
    ensures '\n' !in t.filename ==> '\n' !in ErrorMessage(SyntaxError(t.(value := t.value + "\n" + rest)))
  {
    var v := t.value + "\n" + rest;
    assert IndexOf(v, '\n') == Some(|t.value|) by {
      assert v[|t.value|] == '\n' && v[..|t.value|] == t.value;
    }
    assert FirstLine(v) == t.value;
    var l := Location(t);
    if '\n' !in t.filename {
      assert '\n' !in NatToString(t.line) && '\n' !in NatToString(t.col);
      assert l == t.filename + ":" + NatToString(t.line) + ":" + NatToString(t.col);
      assert '\n' !in l;
      assert '\n' !in "unexpected token: '" + t.value + "' at ";
    }
  }
}

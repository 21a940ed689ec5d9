/** Python's `str.format(**kwargs)` as the build scripts use it: `{name}`
    is replaced by the keyword argument `name`, `{{` and `}}` stand for
    single braces, and everything else is copied. Only keyword arguments
    are passed, so a positional field (`{}`, `{0}`) fails; fields with an
    attribute, an index, a conversion or a format specification are outside
    this model and fail too. */
module PyFormat {
  import opened Common

  datatype FormatError =
    | SingleCloseBrace            // ValueError: Single '}' encountered
    | UnclosedField               // ValueError: expected '}' before end of string
    | MissingPositional(field: string)  // IndexError: no positional argument
    | MissingKey(key: string)     // KeyError
    | Unsupported(field: string)  // a field form this model does not cover

  predicate IsDigit(c: char) { '0' <= c <= '9' }

  /** A field that names a keyword argument directly. */
  predicate SimpleName(field: string) {
    field != [] && !(forall i :: 0 <= i < |field| ==> IsDigit(field[i]))
    && forall i :: 0 <= i < |field| ==> field[i] !in ".[]!:{}"
  }

  /** What a replacement field gives. */
  function Field(field: string, args: map<string, string>): Result<string, FormatError> {
    if field == [] || forall i :: 0 <= i < |field| ==> IsDigit(field[i]) then Err(MissingPositional(field))
    else if exists i :: 0 <= i < |field| && field[i] in ".[]!:{}" then Err(Unsupported(field))
    else if field !in args then Err(MissingKey(field))
    else Ok(args[field])
  }

  /** `template.format(**args)`. */
  function Format(template: string, args: map<string, string>): Result<string, FormatError>
    decreases |template|
  {
    if template == [] then Ok([])
    else if template[0] == '{' then
      if |template| > 1 && template[1] == '{' then Prepend("{", Format(template[2..], args))
      else match IndexOf(template[1..], '}')
        case None => Err(UnclosedField)
        case Some(k) =>
          match Field(template[1..k + 1], args)
          case Err(err) => Err(err)
          case Ok(value) => Prepend(value, Format(template[k + 2..], args))
    else if template[0] == '}' then
      if |template| > 1 && template[1] == '}' then Prepend("}", Format(template[2..], args))
      else Err(SingleCloseBrace)
    else Prepend([template[0]], Format(template[1..], args))
  }

  /** The error of the first item a formatting fails for. */
  function FirstFailure<T>(render: T -> Result<string, FormatError>, items: seq<T>, from: nat): (r: Option<FormatError>)
    requires from <= |items|
    ensures r.None? <==> forall i :: from <= i < |items| ==> render(items[i]).Ok?
    ensures r.Some? ==> exists i :: from <= i < |items| && render(items[i]) == Err(r.value)
    decreases |items| - from
  {
    if from == |items| then None
    else match render(items[from])
      case Err(e) => Some(e)
      case Ok(_) => FirstFailure(render, items, from + 1)
  }

  function Prepend(s: string, r: Result<string, FormatError>): Result<string, FormatError> {
    match r
    case Ok(t) => Ok(s + t)
    case Err(err) => Err(err)
  }

  predicate NoBraces(s: string) {
    forall i :: 0 <= i < |s| ==> s[i] != '{' && s[i] != '}'
  }

  /** Text without braces formats to itself, whatever the arguments. */
  lemma {:induction false} FormatPlain(s: string, args: map<string, string>)
    requires NoBraces(s)
    ensures Format(s, args) == Ok(s)
    decreases |s|
  {
    if s != [] {
      FormatPlain(s[1..], args);
      assert [s[0]] + s[1..] == s;
    }
  }

  /** Every brace doubled: the text a template must hold to produce `s`. */
  function Escape(s: string): (r: string)
    ensures |r| >= |s|
  {
    if s == [] then []
    else if s[0] == '{' || s[0] == '}' then [s[0], s[0]] + Escape(s[1..])
    else [s[0]] + Escape(s[1..])
  }

  /** Formatting escaped text followed by a template yields the text followed
      by what the template yields: escaping is undone by formatting. */
  lemma {:induction false} FormatEscaped(s: string, t: string, args: map<string, string>)
    ensures Format(Escape(s) + t, args) == Prepend(s, Format(t, args))
    decreases |s|
  {
    if s == [] {
      assert Escape(s) + t == t;
      PrependEmpty(Format(t, args));
    } else {
      EscapedHead(s, t, args);
      FormatEscaped(s[1..], t, args);
      PrependTwice([s[0]], s[1..], Format(t, args));
      assert [s[0]] + s[1..] == s;
    }
  }

  /** The first character of escaped text formats to itself. */
  lemma EscapedHead(s: string, t: string, args: map<string, string>)
    requires s != []
    ensures Format(Escape(s) + t, args) == Prepend([s[0]], Format(Escape(s[1..]) + t, args))
  {
    var rest := Escape(s[1..]) + t;
    if s[0] == '{' || s[0] == '}' {
      assert Escape(s) + t == [s[0], s[0]] + rest;
      FormatDoubled(s[0], rest, args);
    } else {
      assert Escape(s) + t == [s[0]] + rest;
      FormatOther(s[0], rest, args);
    }
  }

  /** A doubled brace stands for one brace. */
  lemma FormatDoubled(c: char, rest: string, args: map<string, string>)
    requires c == '{' || c == '}'
    ensures Format([c, c] + rest, args) == Prepend([c], Format(rest, args))
  {
    var template := [c, c] + rest;
    assert template[0] == c && template[1] == c && template[2..] == rest;
  }

  /** Any other character is copied. */
  lemma FormatOther(c: char, rest: string, args: map<string, string>)
    requires c != '{' && c != '}'
    ensures Format([c] + rest, args) == Prepend([c], Format(rest, args))
  {
    var template := [c] + rest;
    assert template[0] == c && template[1..] == rest;
  }

  lemma PrependEmpty(r: Result<string, FormatError>)
    ensures Prepend([], r) == r
  {
    if r.Ok? { assert [] + r.value == r.value; }
  }

  /** Text without braces is copied ahead of the rest. */
  lemma {:induction false} FormatPlainPrefix(s: string, t: string, args: map<string, string>)
    requires NoBraces(s)
    ensures Format(s + t, args) == Prepend(s, Format(t, args))
    decreases |s|
  {
    if s == [] {
      assert s + t == t;
      PrependEmpty(Format(t, args));
    } else {
      FormatPlainPrefix(s[1..], t, args);
      assert (s + t)[1..] == s[1..] + t;
      PrependTwice([s[0]], s[1..], Format(t, args));
      assert [s[0]] + s[1..] == s;
    }
  }

  lemma PrependTwice(a: string, b: string, r: Result<string, FormatError>)
    ensures Prepend(a, Prepend(b, r)) == Prepend(a + b, r)
  {
    if r.Ok? { assert a + (b + r.value) == (a + b) + r.value; }
  }

  /** The round trip: `Escape(s).format(**args) == s`. */
  lemma FormatEscapeRoundTrip(s: string, args: map<string, string>)
    ensures Format(Escape(s), args) == Ok(s)
  {
    FormatEscaped(s, [], args);
    assert Escape(s) + [] == Escape(s);
    assert s + [] == s;
  }

  /** A field naming a keyword argument is replaced by its value, and the
      rest of the template is formatted after it. */
  lemma FormatField(key: string, t: string, args: map<string, string>)
    requires SimpleName(key) && key in args
    ensures Format("{" + key + "}" + t, args) == Prepend(args[key], Format(t, args))
  {
    var template := "{" + key + "}" + t;
    assert template[1..] == key + "}" + t;
    assert '}' !in key;
    assert IndexOf(template[1..], '}') == Some(|key|) by {
      assert template[1..][|key|] == '}';
      assert template[1..][..|key|] == key;
    }
    assert template[1..|key| + 1] == key;
    assert template[|key| + 2..] == t;
  }

  /** A field naming no argument is a `KeyError`. */
  lemma MissingFieldFails(key: string, t: string, args: map<string, string>)
    requires SimpleName(key) && key !in args
    ensures Format("{" + key + "}" + t, args) == Err(MissingKey(key))
  {
    var template := "{" + key + "}" + t;
    assert '}' !in key;
    assert IndexOf(template[1..], '}') == Some(|key|) by {
      assert template[1..][|key|] == '}';
      assert template[1..][..|key|] == key;
    }
    assert template[1..|key| + 1] == key;
  }
}

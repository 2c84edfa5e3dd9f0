/** The rewriting that turns `IN (?)` with a list into one placeholder per element, quotes respected. */
module ExpandArrays {
  import opened Common

  datatype Value = Undefined | Val(n: int)

  datatype Param = Scalar(v: Value) | Arr(vs: seq<Value>)

  predicate IsQuote(ch: char) { ch == '\'' || ch == '"' || ch == '`' }

  /** The quote that is open after reading `s`, if any. */
  function QuoteAfter(s: string): Option<char> {
    if s == [] then None
    else
      var q, ch := QuoteAfter(s[..|s| - 1]), s[|s| - 1];
      if q.Some? then (if ch == q.value then None else q)
      else if IsQuote(ch) then Some(ch) else None
  }

  predicate IsHole(front: string, ch: char) { QuoteAfter(front).None? && ch == '?' }

  /** How many placeholders stand outside quotes. */
  function Holes(s: string): nat {
    if s == [] then 0
    else Holes(s[..|s| - 1]) + if IsHole(s[..|s| - 1], s[|s| - 1]) then 1 else 0
  }

  // ------------------------------------------------------------------ what a statement with parameters means

  /** A statement with its parameters put in: characters of SQL, and values. */
  datatype Piece = Text(c: char) | Bound(v: Value)

  function Given(params: seq<Param>, k: nat): Param { if k < |params| then params[k] else Scalar(Undefined) }

  function Listed(vs: seq<Value>): seq<Piece>
    requires vs != []
  {
    if |vs| == 1 then [Bound(vs[0])] else Listed(vs[..|vs| - 1]) + [Text(','), Bound(vs[|vs| - 1])]
  }

  function Texts(s: string): seq<Piece> { seq(|s|, i requires 0 <= i < |s| => Text(s[i])) }

  /** A list stands for its elements with commas between, an empty one for NULL. */
  function Spliced(p: Param): seq<Piece> {
    match p
    case Scalar(v) => [Bound(v)]
    case Arr(vs) => if vs == [] then Texts("NULL") else Listed(vs)
  }

  function Meaning(sql: string, params: seq<Param>): seq<Piece> {
    if sql == [] then []
    else
      var front, ch := sql[..|sql| - 1], sql[|sql| - 1];
      Meaning(front, params) + if IsHole(front, ch) then Spliced(Given(params, Holes(front))) else [Text(ch)]
  }

  function Scalars(vs: seq<Value>): seq<Param> { seq(|vs|, i requires 0 <= i < |vs| => Scalar(vs[i])) }

  function Marks(n: nat): string { if n == 0 then "" else if n == 1 then "?" else Marks(n - 1) + ",?" }

  /** A list is spliced as its elements, all of them, in order, with single commas between; an empty one as NULL. */
  lemma {:induction false} SplicedIs(vs: seq<Value>)
    ensures vs != [] ==>
              && |Spliced(Arr(vs))| == 2 * |vs| - 1
              && (forall i :: 0 <= i < |vs| ==> Spliced(Arr(vs))[2 * i] == Bound(vs[i]))
              && forall i :: 0 <= i < |vs| - 1 ==> Spliced(Arr(vs))[2 * i + 1] == Text(',')
    ensures vs == [] ==> Spliced(Arr(vs)) == [Text('N'), Text('U'), Text('L'), Text('L')]
  {
    if |vs| > 1 { SplicedIs(vs[..|vs| - 1]); }
  }

  // ------------------------------------------------------------------ appending to a rewritten prefix

  lemma {:induction false} UnusedParamsDoNotMatter(sql: string, params: seq<Param>, more: seq<Param>)
    requires Holes(sql) <= |params|
    ensures Meaning(sql, params + more) == Meaning(sql, params)
  {
    if sql != [] { UnusedParamsDoNotMatter(sql[..|sql| - 1], params, more); }
  }

  lemma Snoc(out: string, ch: char, params: seq<Param>)
    ensures QuoteAfter(out + [ch])
         == (if QuoteAfter(out).Some? then (if ch == QuoteAfter(out).value then None else QuoteAfter(out))
             else if IsQuote(ch) then Some(ch) else None)
    ensures Holes(out + [ch]) == Holes(out) + if IsHole(out, ch) then 1 else 0
    ensures Meaning(out + [ch], params)
         == Meaning(out, params) + if IsHole(out, ch) then Spliced(Given(params, Holes(out))) else [Text(ch)]
  {
    assert (out + [ch])[..|out + [ch]| - 1] == out;
  }

  predicate Plain(text: string) { forall ch :: ch in text ==> !IsQuote(ch) && ch != '?' }

  lemma {:induction false} AppendPlain(out: string, text: string, params: seq<Param>)
    requires QuoteAfter(out).None? && Plain(text)
    ensures QuoteAfter(out + text).None? && Holes(out + text) == Holes(out)
    ensures Meaning(out + text, params) == Meaning(out, params) + Texts(text)
  {
    if text == [] {
      assert out + text == out;
    } else {
      var front, ch := text[..|text| - 1], text[|text| - 1];
      AppendPlain(out, front, params);
      Snoc(out + front, ch, params);
      assert out + text == out + front + [ch];
      assert Texts(text) == Texts(front) + [Text(ch)];
    }
  }

  /** One more placeholder for one more value. */
  lemma AppendHole(out: string, flat: seq<Value>, v: Value)
    requires QuoteAfter(out).None? && Holes(out) == |flat|
    ensures QuoteAfter(out + "?").None? && Holes(out + "?") == |flat + [v]|
    ensures Meaning(out + "?", Scalars(flat + [v])) == Meaning(out, Scalars(flat)) + [Bound(v)]
  {
    Snoc(out, '?', Scalars(flat + [v]));
    assert Scalars(flat + [v]) == Scalars(flat) + [Scalar(v)];
    UnusedParamsDoNotMatter(out, Scalars(flat), [Scalar(v)]);
    assert out + "?" == out + ['?'];
  }

  /** A comma and one more placeholder, for one more value. */
  lemma AppendMark(out: string, flat: seq<Value>, v: Value)
    requires QuoteAfter(out).None? && Holes(out) == |flat|
    ensures QuoteAfter(out + "," + "?").None? && Holes(out + "," + "?") == |flat + [v]|
    ensures Meaning(out + "," + "?", Scalars(flat + [v])) == Meaning(out, Scalars(flat)) + [Text(','), Bound(v)]
  {
    AppendPlain(out, ",", Scalars(flat));
    assert Texts(",") == [Text(',')];
    AppendHole(out + ",", flat, v);
    assert [Text(','), Bound(v)] == [Text(',')] + [Bound(v)];
    Regroup(Meaning(out, Scalars(flat)), [Text(',')], [Bound(v)]);
  }

  lemma JoinMarks(out: string, front: string)
    ensures out + (front + ",?") == out + front + "," + "?"
  {
    assert ",?" == "," + "?";
    Regroup(front, ",", "?");
    Regroup(out, front + ",", "?");
    Regroup(out, front, ",");
  }

  lemma {:induction false} AppendMarks(out: string, flat: seq<Value>, vs: seq<Value>)
    requires QuoteAfter(out).None? && Holes(out) == |flat| && vs != []
    ensures QuoteAfter(out + Marks(|vs|)).None? && Holes(out + Marks(|vs|)) == |flat + vs|
    ensures Meaning(out + Marks(|vs|), Scalars(flat + vs)) == Meaning(out, Scalars(flat)) + Listed(vs)
  {
    var front, last := vs[..|vs| - 1], vs[|vs| - 1];
    if |vs| == 1 {
      assert vs == [last];
      AppendHole(out, flat, last);
    } else {
      AppendMarks(out, flat, front);
      AppendMark(out + Marks(|front|), flat + front, last);
      JoinMarks(out, Marks(|front|));
      assert vs == front + [last];
      Regroup(flat, front, [last]);
      Regroup(Meaning(out, Scalars(flat)), Listed(front), [Text(','), Bound(last)]);
    }
  }

  // ------------------------------------------------------------------ the rewriting

  ghost predicate HasArray(params: seq<Param>) { exists p :: p in params && p.Arr? }

  function Values(params: seq<Param>): seq<Value>
    requires forall p :: p in params ==> p.Scalar?
  {
    seq(|params|, i requires 0 <= i < |params| => params[i].v)
  }

  lemma ScalarsOfValues(params: seq<Param>)
    requires forall p :: p in params ==> p.Scalar?
    ensures Scalars(Values(params)) == params
  {
    forall i | 0 <= i < |params| ensures Scalars(Values(params))[i] == params[i] {
      assert params[i] in params;
    }
  }

  /**
   * The rewritten statement means what the original meant. Placeholders and values match up exactly
   * when there is a list among the parameters or the caller counted right: with a list, missing
   * values become undefined and surplus ones are dropped.
   */
  method Expand(sql: string, params: seq<Param>) returns (out: string, flat: seq<Value>)
    ensures Meaning(out, Scalars(flat)) == Meaning(sql, params)
    ensures !HasArray(params) ==> out == sql && flat == Values(params)
    ensures Holes(out) == |flat| <==> HasArray(params) || Holes(sql) == |params|
    ensures QuoteAfter(out) == QuoteAfter(sql)
  {
    if !(exists p :: p in params && p.Arr?) {
      ScalarsOfValues(params);
      return sql, Values(params);
    }
    out, flat := "", [];
    var arg := 0;
    var quote: Option<char> := None;
    for i := 0 to |sql|
      invariant quote == QuoteAfter(sql[..i]) == QuoteAfter(out)
      invariant arg == Holes(sql[..i]) && Holes(out) == |flat|
      invariant Meaning(out, Scalars(flat)) == Meaning(sql[..i], params)
    {
      var ch := sql[i];
      assert sql[..i + 1] == sql[..i] + [ch];
      Snoc(sql[..i], ch, params);
      Snoc(out, ch, Scalars(flat));
      if quote.Some? {
        out := out + [ch];
        if ch == quote.value { quote := None; }
        continue;
      }
      if ch == '\'' || ch == '"' || ch == '`' {
        quote := Some(ch);
        out := out + [ch];
        continue;
      }
      if ch != '?' {
        out := out + [ch];
        continue;
      }
      var p := if arg < |params| then params[arg] else Scalar(Undefined);
      arg := arg + 1;
      if p.Arr? {
        if |p.vs| == 0 {
          AppendPlain(out, "NULL", Scalars(flat));
          out := out + "NULL";
        } else {
          AppendMarks(out, flat, p.vs);
          out, flat := out + Marks(|p.vs|), flat + p.vs;
        }
      } else {
        AppendHole(out, flat, p.v);
        out, flat := out + "?", flat + [p.v];
      }
    }
    assert sql[..|sql|] == sql;
  }

  /** Text inside quotes carries no placeholder: inserting it quoted, whatever it holds, uses up no parameter. */
  lemma {:induction false} QuotedTextIsInert(before: string, text: string, q: char, params: seq<Param>)
    requires QuoteAfter(before).None? && IsQuote(q) && q !in text
    ensures QuoteAfter(before + [q] + text) == Some(q) && Holes(before + [q] + text) == Holes(before)
    ensures Meaning(before + [q] + text, params) == Meaning(before, params) + [Text(q)] + Texts(text)
  {
    if text == [] {
      Snoc(before, q, params);
      assert before + [q] + text == before + [q];
    } else {
      var front, ch := text[..|text| - 1], text[|text| - 1];
      assert ch in text;
      QuotedTextIsInert(before, front, q, params);
      Snoc(before + [q] + front, ch, params);
      assert before + [q] + text == before + [q] + front + [ch];
      assert Texts(text) == Texts(front) + [Text(ch)];
    }
  }
}

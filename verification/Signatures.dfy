// Method signatures: parameter types are encoded into a method's name when it is compiled and taken
// out of the name again when it is loaded from a library.

module Signatures {
  import opened Wrappers

  datatype Kind = BOOLEAN_TYPE | BYTE_TYPE | INT_TYPE | FLOAT_TYPE | CHAR_TYPE | NIL_TYPE

  datatype Type =
    | Basic(kind: Kind, dim: nat)
    | Class(name: string, dim: nat)
    | Func(params: seq<Type>, rtrn: Type, dim: nat)

  // ----- Encoding -----

  function Letter(kind: Kind): char {
    match kind
    case BOOLEAN_TYPE => 'l'
    case BYTE_TYPE => 'b'
    case INT_TYPE => 'i'
    case FLOAT_TYPE => 'f'
    case CHAR_TYPE => 'c'
    case NIL_TYPE => 'n'
  }

  function Stars(n: nat): string {
    if n == 0 then "" else "*" + Stars(n - 1)
  }

  function EncodeType(t: Type): string
    decreases t, 1
  {
    Unstarred(t) + Stars(t.dim)
  }

  function Unstarred(t: Type): string
    decreases t, 0
  {
    match t
    case Basic(kind, _) => [Letter(kind)]
    case Class(name, _) => "o." + name
    case Func(params, rtrn, _) => "m." + ("(" + EncodeFunctionParameters(params) + ")~" + EncodeType(rtrn))
  }

  /** The dimension of a function's parameter is written twice. */
  function EncodeFunctionParameters(params: seq<Type>): string {
    if params == [] then "" else EncodeType(params[0]) + Stars(params[0].dim) + "," + EncodeFunctionParameters(params[1..])
  }

  /** What follows the last colon of a method's name. */
  function EncodeParameters(types: seq<Type>): string {
    if types == [] then "" else EncodeType(types[0]) + "," + EncodeParameters(types[1..])
  }

  // ----- Decoding -----

  datatype DeclKind = Scalar(kind: Kind) | CLASS_TYPE | FUNC_TYPE

  datatype Decl = Decl(kind: DeclKind, name: string, dim: nat)

  function Until(p: string, stops: set<char>): (n: nat)
    ensures n <= |p| && (forall i :: 0 <= i < n ==> p[i] !in stops) && (n < |p| ==> p[n] in stops)
  {
    if p == "" || p[0] in stops then 0 else 1 + Until(p[1..], stops)
  }

  function LeadingStars(p: string): (n: nat)
    ensures n <= |p|
  {
    if p == "" || p[0] != '*' then 0 else 1 + LeadingStars(p[1..])
  }

  function KindOf(c: char): Option<Kind> {
    if c == 'l' then Some(BOOLEAN_TYPE) else if c == 'b' then Some(BYTE_TYPE) else if c == 'i' then Some(INT_TYPE)
    else if c == 'f' then Some(FLOAT_TYPE) else if c == 'c' then Some(CHAR_TYPE) else if c == 'n' then Some(NIL_TYPE) else None
  }

  datatype Parsed<T> = Parsed(value: T, rest: string) | Abort

  /** The end of a function type: behind the first ~, up to the next star or comma. */
  function FunctionEnd(p: string): (n: nat)
    ensures n <= |p|
  {
    var tilde := Until(p, {'~'});
    if tilde + 1 >= |p| then |p| else tilde + 1 + Until(p[tilde + 1..], {'*', ','})
  }

  /** The kind and name at the head of p; an unknown letter is not even skipped. */
  function ParseKind(p: string): Parsed<Option<(DeclKind, string)>>
    requires p != ""
  {
    if KindOf(p[0]).Some? then Parsed(Some((Scalar(KindOf(p[0]).value), "")), p[1..])
    else if p[0] == 'm' then Parsed(Some((FUNC_TYPE, p[..FunctionEnd(p)])), p[FunctionEnd(p)..])
    else if p[0] == 'o' then
      if |p| < 2 then Abort
      else
        var n := Until(p[2..], {'*', ','});
        Parsed(Some((CLASS_TYPE, p[2..][..n])), p[2..][n..])
    else Parsed(None, p)
  }

  /** One declaration and the comma behind it. */
  function ParseParameter(p: string): (r: Parsed<Option<Decl>>)
    requires p != ""
    ensures r.Parsed? ==> |r.rest| < |p|
  {
    var k := ParseKind(p);
    if k.Abort? then Abort else
    var dim := LeadingStars(k.rest);
    var rest := k.rest[dim..];
    Parsed(if k.value.None? then None else Some(Decl(k.value.value.0, k.value.value.1, dim)), if rest == "" then "" else rest[1..])
  }

  function ParseAll(p: string): Option<seq<Option<Decl>>>
    decreases |p|
  {
    if p == "" then Some([]) else
    var first := ParseParameter(p);
    if first.Abort? then None else
    var others := ParseAll(first.rest);
    if others.None? then None else Some([first.value] + others.value)
  }

  // ----- Round trip -----

  predicate PlainName(name: string) {
    '*' !in name && ',' !in name && '~' !in name
  }

  /** Basic or class. */
  predicate FirstOrder(t: Type) {
    t.Basic? || (t.Class? && PlainName(t.name))
  }

  /** Types whose encoding can be taken apart: functions take and return basic or class types. */
  predicate Encodable(t: Type) {
    FirstOrder(t) || (t.Func? && FirstOrder(t.rtrn) && forall p <- t.params :: FirstOrder(p))
  }

  function Declared(t: Type): Decl {
    match t
    case Basic(kind, dim) => Decl(Scalar(kind), "", dim)
    case Class(name, dim) => Decl(CLASS_TYPE, name, dim)
    case Func(_, _, dim) => Decl(FUNC_TYPE, Unstarred(t), dim)
  }

  function Expected(types: seq<Type>): (r: seq<Option<Decl>>)
    ensures |r| == |types| && forall i :: 0 <= i < |r| ==> r[i] == Some(Declared(types[i]))
  {
    seq(|types|, i requires 0 <= i < |types| => Some(Declared(types[i])))
  }

  lemma {:induction false} UntilStop(x: string, k: string, stops: set<char>)
    requires (forall c <- stops :: c !in x) && k != "" && k[0] in stops
    ensures Until(x + k, stops) == |x|
  {
    if x == "" {
      assert x + k == k;
    } else {
      assert (x + k)[0] == x[0] && (x + k)[1..] == x[1..] + k;
      UntilStop(x[1..], k, stops);
    }
  }

  lemma {:induction false} StarsLead(n: nat, k: string)
    requires k == "" || k[0] != '*'
    ensures LeadingStars(Stars(n) + k) == n && (Stars(n) + k)[n..] == k && |Stars(n)| == n
  {
    if n == 0 {
      assert "" + k == k;
    } else {
      assert (Stars(n) + k)[1..] == Stars(n - 1) + k;
      StarsLead(n - 1, k);
      assert (Stars(n) + k)[n..] == (Stars(n - 1) + k)[n - 1..];
    }
  }

  lemma StarsHead(n: nat, k: string)
    requires k != "" && k[0] == ','
    ensures Stars(n) + k != "" && (Stars(n) + k)[0] in {'*', ','}
  {
    if n == 0 { assert Stars(n) + k == k; }
  }

  /** A basic or class type holds no ~, and no star or comma in front of its dimension. */
  lemma FirstOrderText(t: Type)
    requires FirstOrder(t)
    ensures '*' !in Unstarred(t) && ',' !in Unstarred(t) && '~' !in Unstarred(t)
  {
  }

  lemma {:induction false} StarsText(n: nat)
    ensures '~' !in Stars(n)
  {
    if n > 0 { StarsText(n - 1); }
  }

  lemma {:induction false} ParametersText(params: seq<Type>)
    requires forall p <- params :: FirstOrder(p)
    ensures '~' !in EncodeFunctionParameters(params)
  {
    if params != [] {
      FirstOrderText(params[0]);
      StarsText(params[0].dim);
      ParametersText(params[1..]);
      assert '~' !in EncodeType(params[0]);
    }
  }

  /** The text of a function type up to the stars of what it returns. */
  function Bare(t: Type): string
    requires t.Func?
  {
    "m." + ("(" + EncodeFunctionParameters(t.params) + ")~" + Unstarred(t.rtrn))
  }

  lemma FunctionText(t: Type, k: string)
    requires t.Func? && Encodable(t) && k != "" && k[0] in {'*', ','}
    ensures FunctionEnd(Bare(t) + k) == |Bare(t)|
  {
    var head, tail := "m." + ("(" + EncodeFunctionParameters(t.params) + ")"), Unstarred(t.rtrn);
    ParametersText(t.params);
    FirstOrderText(t.rtrn);
    assert Bare(t) + k == head + ("~" + (tail + k));
    UntilStop(head, "~" + (tail + k), {'~'});
    assert (Bare(t) + k)[|head| + 1..] == tail + k;
    UntilStop(tail, k, {'*', ','});
  }

  /** An encoded type is decoded to its kind and name; a function's stars are those of what it returns
      and its own, taken together. */
  lemma KindTrip(t: Type, k: string)
    requires Encodable(t) && k != "" && k[0] in {'*', ','}
    ensures t.Func? ==> ParseKind(Bare(t) + k) == Parsed(Some((FUNC_TYPE, Bare(t))), k)
    ensures !t.Func? ==> ParseKind(Unstarred(t) + k) == Parsed(Some((Declared(t).kind, Declared(t).name)), k)
  {
    hide Until, FunctionEnd;
    match t
    case Basic(kind, _) => Cut([Letter(kind)], k);
    case Class(name, _) => ClassTrip(name, k);
    case Func(_, _, _) =>
      FunctionText(t, k);
      Cut(Bare(t), k);
      assert (Bare(t) + k)[0] == 'm';
      hide Bare;
  }

  lemma ClassTrip(name: string, k: string)
    requires '*' !in name && ',' !in name && k != "" && k[0] in {'*', ','}
    ensures ParseKind("o." + name + k) == Parsed(Some((CLASS_TYPE, name)), k)
  {
    hide Until, FunctionEnd;
    Assoc("o.", name, k);
    Cut("o.", name + k);
    UntilStop(name, k, {'*', ','});
    Cut(name, k);
  }

  /** Stars a decoder sees behind a type. */
  function SeenDim(t: Type): nat {
    if t.Func? then t.rtrn.dim + t.dim else t.dim
  }

  function Seen(t: Type): Decl {
    if t.Func? then Decl(FUNC_TYPE, Bare(t), SeenDim(t)) else Declared(t)
  }

  lemma {:induction false} StarsJoin(m: nat, n: nat)
    ensures Stars(m) + Stars(n) == Stars(m + n)
  {
    if m == 0 {
      assert "" + Stars(n) == Stars(n);
    } else {
      StarsJoin(m - 1, n);
      assert Stars(m) + Stars(n) == "*" + (Stars(m - 1) + Stars(n));
    }
  }

  function Text(t: Type): string {
    if t.Func? then Bare(t) else Unstarred(t)
  }

  lemma TextOf(t: Type, k: string)
    ensures EncodeType(t) + k == Text(t) + (Stars(SeenDim(t)) + k)
  {
    if t.Func? {
      var head, r := "(" + EncodeFunctionParameters(t.params) + ")~", Unstarred(t.rtrn);
      StarsJoin(t.rtrn.dim, t.dim);
      assert EncodeType(t.rtrn) == r + Stars(t.rtrn.dim);
      assert Unstarred(t) == "m." + (head + (r + Stars(t.rtrn.dim)));
      assert Bare(t) == "m." + (head + r);
      Glue("m.", head, r, Stars(t.rtrn.dim), Stars(t.dim));
      Assoc(Bare(t), Stars(SeenDim(t)), k);
    } else {
      Assoc(Unstarred(t), Stars(t.dim), k);
    }
  }

  lemma Assoc(a: string, b: string, k: string)
    ensures (a + b) + k == a + (b + k)
  {
  }

  lemma Glue(a: string, b: string, r: string, m: string, n: string)
    ensures (a + (b + (r + m))) + n == (a + (b + r)) + (m + n)
  {
  }

  lemma Cut(x: string, k: string)
    ensures (x + k)[..|x|] == x && (x + k)[|x|..] == k
  {
  }

  lemma ParameterSeen(t: Type, k: string)
    requires Encodable(t)
    ensures EncodeType(t) + ("," + k) != ""
    ensures ParseParameter(EncodeType(t) + ("," + k)) == Parsed(Some(Seen(t)), k)
  {
    var p := Text(t) + (Stars(SeenDim(t)) + ("," + k));
    hide ParseKind, EncodeType, Text, Stars, LeadingStars, Encodable, SeenDim, Seen;
    TextOf(t, "," + k);
    StarsHead(SeenDim(t), "," + k);
    TextSeen(t, Stars(SeenDim(t)) + ("," + k));
    StarsLead(SeenDim(t), "," + k);
    SeenWith(t);
    assert ("," + k)[1..] == k;
  }

  lemma SeenWith(t: Type)
    ensures Seen(t) == Decl(Seen(t).kind, Seen(t).name, SeenDim(t))
  {
  }

  lemma TextSeen(t: Type, k: string)
    requires Encodable(t) && k != "" && k[0] in {'*', ','}
    ensures ParseKind(Text(t) + k) == Parsed(Some((Seen(t).kind, Seen(t).name)), k)
  {
    hide ParseKind, EncodeType, Bare, Unstarred, Encodable;
    KindTrip(t, k);
  }

  function SeenAll(types: seq<Type>): (r: seq<Option<Decl>>)
    ensures |r| == |types| && forall i :: 0 <= i < |r| ==> r[i] == Some(Seen(types[i]))
  {
    seq(|types|, i requires 0 <= i < |types| => Some(Seen(types[i])))
  }

  lemma {:induction false} AllSeen(types: seq<Type>)
    requires forall t <- types :: Encodable(t)
    ensures ParseAll(EncodeParameters(types)) == Some(SeenAll(types))
  {
    hide EncodeType, ParseParameter, Seen, Encodable;
    if types != [] {
      var t, k := types[0], EncodeParameters(types[1..]);
      Assoc(EncodeType(t), ",", k);
      ParameterSeen(t, k);
      AllSeen(types[1..]);
      assert [Some(Seen(t))] + SeenAll(types[1..]) == SeenAll(types);
    }
  }

  /** Round trip: the same kinds, names and dimensions come back in order, exactly when no function
      among the parameters returns an array. */
  lemma SignatureTrip(types: seq<Type>)
    requires forall t <- types :: Encodable(t)
    ensures ParseAll(EncodeParameters(types)) == Some(Expected(types)) <==> forall t <- types :: t.Func? ==> t.rtrn.dim == 0
  {
    AllSeen(types);
    forall i | 0 <= i < |types| ensures SeenAll(types)[i] == Expected(types)[i] <==> (types[i].Func? ==> types[i].rtrn.dim == 0) {
      SeenRight(types[i]);
    }
    if forall t <- types :: t.Func? ==> t.rtrn.dim == 0 {
      forall i | 0 <= i < |types| ensures SeenAll(types)[i] == Expected(types)[i] { assert types[i] in types; }
      assert SeenAll(types) == Expected(types);
    } else {
      var i :| 0 <= i < |types| && types[i].Func? && types[i].rtrn.dim != 0;
      assert SeenAll(types)[i] != Expected(types)[i];
    }
  }

  lemma SeenRight(t: Type)
    ensures Seen(t) == Declared(t) <==> (t.Func? ==> t.rtrn.dim == 0)
  {
    if t.Func? {
      if t.rtrn.dim == 0 { assert Unstarred(t) == Bare(t); }
    }
  }

  // ----- No two types are written alike -----

  function WithDim(t: Type, dim: nat): Type {
    match t
    case Basic(kind, _) => Basic(kind, dim)
    case Class(name, _) => Class(name, dim)
    case Func(params, rtrn, _) => Func(params, rtrn, dim)
  }

  /** What the decoder finds for the parameters of a function: theirs, with twice their dimensions. */
  function Doubled(params: seq<Type>): (r: seq<Option<Decl>>)
    ensures |r| == |params| && forall i :: 0 <= i < |r| ==> r[i] == Some(Declared(params[i]).(dim := 2 * params[i].dim))
  {
    seq(|params|, i requires 0 <= i < |params| => Some(Declared(params[i]).(dim := 2 * params[i].dim)))
  }

  lemma Restarred(t: Type)
    requires FirstOrder(t)
    ensures var d := WithDim(t, 2 * t.dim);
      && EncodeType(d) == Unstarred(t) + Stars(2 * t.dim)
      && Seen(d) == Declared(t).(dim := 2 * t.dim) && Encodable(d)
  {
  }

  lemma TwiceStarred(t: Type, k: string)
    requires FirstOrder(t)
    ensures EncodeType(t) + Stars(t.dim) + "," + k == EncodeType(WithDim(t, 2 * t.dim)) + ("," + k)
  {
    assert EncodeType(t) == Unstarred(t) + Stars(t.dim);
    hide *;
    Restarred(t);
    StarsJoin(t.dim, t.dim);
    Assoc(Unstarred(t), Stars(t.dim), Stars(t.dim));
    Assoc(EncodeType(t) + Stars(t.dim), ",", k);
  }

  /** The text between a function's parentheses holds every parameter, in order: the loader's own decoder finds their kinds,
      their names and twice their dimensions there. */
  lemma {:induction false} FunctionParametersTrip(params: seq<Type>)
    requires forall p <- params :: FirstOrder(p)
    ensures ParseAll(EncodeFunctionParameters(params)) == Some(Doubled(params))
  {
    hide EncodeType, ParseParameter, Seen, Encodable, FirstOrder, Stars;
    if params != [] {
      var p, k := params[0], EncodeFunctionParameters(params[1..]);
      TwiceStarred(p, k);
      Restarred(p);
      ParameterSeen(WithDim(p, 2 * p.dim), k);
      FunctionParametersTrip(params[1..]);
      assert [Some(Declared(p).(dim := 2 * p.dim))] + Doubled(params[1..]) == Doubled(params);
    }
  }

  lemma DeclaredOnce(p: Type, q: Type)
    requires FirstOrder(p) && FirstOrder(q) && Declared(p) == Declared(q)
    ensures p == q
  {
  }

  lemma ParametersDiffer(ps: seq<Type>, qs: seq<Type>)
    requires (forall p <- ps :: FirstOrder(p)) && forall q <- qs :: FirstOrder(q)
    requires EncodeFunctionParameters(ps) == EncodeFunctionParameters(qs)
    ensures ps == qs
  {
    FunctionParametersTrip(ps);
    FunctionParametersTrip(qs);
    assert |Doubled(ps)| == |Doubled(qs)|;
    forall i | 0 <= i < |ps| ensures ps[i] == qs[i] {
      assert Doubled(ps)[i] == Doubled(qs)[i];
      DeclaredOnce(ps[i], qs[i]);
    }
  }

  lemma NamesDiffer(t: Type, u: Type)
    requires FirstOrder(t) && FirstOrder(u)
    ensures Unstarred(t) == Unstarred(u) ==> WithDim(t, 0) == WithDim(u, 0)
  {
    if Unstarred(t) == Unstarred(u) {
      if t.Class? && u.Class? {
        assert ("o." + t.name)[2..] == t.name && ("o." + u.name)[2..] == u.name;
      } else if t.Basic? && u.Basic? {
        assert KindOf(Letter(t.kind)) == Some(t.kind) && KindOf(Letter(u.kind)) == Some(u.kind);
        assert Unstarred(t)[0] == Letter(t.kind) && Unstarred(u)[0] == Letter(u.kind);
      }
    }
  }

  /** The text in front of the first ~ and the text behind it. */
  lemma CutAtTilde(x: string, y: string, x': string, y': string)
    requires '~' !in x && '~' !in x' && x + ("~" + y) == x' + ("~" + y')
    ensures x == x' && y == y'
  {
    UntilStop(x, "~" + y, {'~'});
    UntilStop(x', "~" + y', {'~'});
    Cut(x, "~" + y);
    Cut(x', "~" + y');
    assert ("~" + y)[1..] == y && ("~" + y')[1..] == y';
  }

  lemma BareDiffers(t: Type, u: Type)
    requires t.Func? && u.Func? && Encodable(t) && Encodable(u) && Bare(t) == Bare(u)
    ensures t.params == u.params && WithDim(t.rtrn, 0) == WithDim(u.rtrn, 0)
  {
    var p, q := EncodeFunctionParameters(t.params), EncodeFunctionParameters(u.params);
    ParametersText(t.params);
    ParametersText(u.params);
    BareCut(p, Unstarred(t.rtrn));
    BareCut(q, Unstarred(u.rtrn));
    hide EncodeFunctionParameters, Unstarred;
    CutAtTilde("m.(" + p + ")", Unstarred(t.rtrn), "m.(" + q + ")", Unstarred(u.rtrn));
    Between(p, q);
    ParametersDiffer(t.params, u.params);
    NamesDiffer(t.rtrn, u.rtrn);
  }

  lemma BareCut(p: string, r: string)
    ensures "m." + ("(" + p + ")~" + r) == ("m.(" + p + ")") + ("~" + r)
  {
  }

  lemma Between(p: string, q: string)
    requires "m.(" + p + ")" == "m.(" + q + ")"
    ensures p == q
  {
    assert ("m.(" + p + ")")[3..|p| + 3] == p && ("m.(" + q + ")")[3..|q| + 3] == q;
  }

  /** The same type, up to which stars of a function type are its own and which those of what it returns. */
  predicate SameUpToStars(t: Type, u: Type) {
    if t.Func? && u.Func?
    then t.params == u.params && WithDim(t.rtrn, 0) == WithDim(u.rtrn, 0) && t.rtrn.dim + t.dim == u.rtrn.dim + u.dim
    else t == u
  }

  /** Two types are written alike exactly when they are the same up to that. */
  lemma EncodingsDiffer(t: Type, u: Type)
    requires Encodable(t) && Encodable(u)
    ensures EncodeType(t) == EncodeType(u) <==> SameUpToStars(t, u)
  {
    TextOf(t, "");
    TextOf(u, "");
    WithNothing(t);
    WithNothing(u);
    if EncodeType(t) == EncodeType(u) {
      ParameterSeen(t, "");
      ParameterSeen(u, "");
      SeenApart(t, u);
    } else if SameUpToStars(t, u) {
      SameText(t, u);
    }
  }

  lemma WithNothing(t: Type)
    ensures EncodeType(t) + "" == EncodeType(t) && Stars(SeenDim(t)) + "" == Stars(SeenDim(t))
  {
  }

  lemma SeenApart(t: Type, u: Type)
    requires Encodable(t) && Encodable(u) && Seen(t) == Seen(u)
    ensures SameUpToStars(t, u)
  {
    hide Bare, Unstarred;
    if t.Func? && u.Func? { BareDiffers(t, u); }
  }

  lemma SameText(t: Type, u: Type)
    requires SameUpToStars(t, u)
    ensures Text(t) == Text(u) && SeenDim(t) == SeenDim(u)
  {
    if t.Func? && u.Func? { SameUnstarred(t.rtrn, u.rtrn); }
  }

  lemma SameUnstarred(t: Type, u: Type)
    requires WithDim(t, 0) == WithDim(u, 0)
    ensures Unstarred(t) == Unstarred(u)
  {
  }

  lemma OneMoreType(t: Type, types: seq<Type>)
    ensures EncodeParameters([t] + types) == EncodeType(t) + ("," + EncodeParameters(types))
  {
    assert ([t] + types)[0] == t && ([t] + types)[1..] == types;
    Assoc(EncodeType(t), ",", EncodeParameters(types));
  }

  lemma LetterText(kind: Kind)
    ensures EncodeType(Basic(kind, 0)) == [Letter(kind)]
  {
  }

  /** How basic types are written. */
  lemma LettersText()
    ensures EncodeParameters([Basic(BOOLEAN_TYPE, 0)] + ([Basic(BYTE_TYPE, 0)] + ([Basic(INT_TYPE, 0)] + ([Basic(FLOAT_TYPE, 0)]
      + ([Basic(CHAR_TYPE, 0)] + ([Basic(NIL_TYPE, 0)] + [])))))) == "l,b,i,f,c,n,"
  {
    forall kind: Kind ensures EncodeType(Basic(kind, 0)) == [Letter(kind)] { LetterText(kind); }
    hide EncodeType, EncodeParameters;
    var n, c, f, i, b := [Basic(NIL_TYPE, 0)] + [], [Basic(CHAR_TYPE, 0)], [Basic(FLOAT_TYPE, 0)], [Basic(INT_TYPE, 0)], [Basic(BYTE_TYPE, 0)];
    Nothing();
    OneMoreType(Basic(NIL_TYPE, 0), []);
    OneMoreType(Basic(CHAR_TYPE, 0), n);
    OneMoreType(Basic(FLOAT_TYPE, 0), c + n);
    OneMoreType(Basic(INT_TYPE, 0), f + (c + n));
    OneMoreType(Basic(BYTE_TYPE, 0), i + (f + (c + n)));
    OneMoreType(Basic(BOOLEAN_TYPE, 0), b + (i + (f + (c + n))));
  }

  lemma Nothing()
    ensures EncodeParameters([]) == ""
  {
  }

  const INNER := Func([], Basic(INT_TYPE, 0), 0)

  const OUTER := Func([INNER], Basic(FLOAT_TYPE, 0), 0)

  lemma OuterText()
    ensures EncodeParameters([OUTER]) == "m.(m.()" + "~i,)~f,"
  {
    assert EncodeType(Basic(INT_TYPE, 0)) == "i" && EncodeType(Basic(FLOAT_TYPE, 0)) == "f";
    assert EncodeType(INNER) == "m.()~i";
    assert [INNER][1..] == [] && EncodeFunctionParameters([INNER]) == "m.()~i,";
    hide EncodeFunctionParameters;
    assert Unstarred(OUTER) == "m." + ("(" + "m.()~i," + ")~" + "f");
    assert EncodeType(OUTER) == "m.(m.()~i,)~f";
    assert [OUTER][1..] == [];
  }

  /** A function parameter that takes a function is cut at the wrong ~: two declarations come back. */
  lemma NestedFunctionCut()
    ensures ParseParameter(EncodeParameters([OUTER])) == Parsed(Some(Decl(FUNC_TYPE, "m.(m.()~i", 0)), ")~f,")
  {
    var head, tail := "m.(m.()", "~i,)~f,";
    OuterText();
    var p := head + tail;
    UntilStop(head, tail, {'~'});
    UntilStop("i", ",)~f,", {'*', ','});
    assert p[8..] == "i" + ",)~f,";
    assert FunctionEnd(p) == 9 && p[..9] == "m.(m.()~i" && p[9..] == ",)~f,";
    hide EncodeParameters;
  }

  // ----- The decoder as it works -----

  class LibraryMethod {
    const name: string
    var declarations: seq<Option<Decl>>

    constructor (n: string)
      ensures name == n && declarations == []
    {
      name, declarations := n, [];
    }

    static method Scan(p: string, from: nat, stops: set<char>) returns (index: nat)
      requires from <= |p|
      ensures index == from + Until(p[from..], stops)
    {
      index := from;
      while index < |p| && p[index] !in stops
        invariant from <= index <= |p| && from + Until(p[from..], stops) == index + Until(p[index..], stops)
      {
        assert p[index..][0] == p[index] && p[index..][1..] == p[index + 1..];
        index := index + 1;
      }
    }

    static method ScanFunction(p: string, start: nat) returns (index: nat)
      requires start < |p|
      ensures index == start + FunctionEnd(p[start..])
    {
      hide Until;
      index := Scan(p, start, {'~'});
      if index + 1 >= |p| {
        index := |p|;
      } else {
        assert p[start..][index - start + 1..] == p[index + 1..];
        index := Scan(p, index + 1, {'*', ','});
      }
    }

    static lemma Slices(p: string, start: nat, from: nat, index: nat)
      requires start <= from <= index <= |p|
      ensures p[start..][from - start..] == p[from..]
      ensures p[from..][..index - from] == p[from..index] && p[from..][index - from..] == p[index..]
    {
    }

    static lemma ScalarKind(p: string, start: nat)
      requires start < |p| && KindOf(p[start]).Some?
      ensures ParseKind(p[start..]) == Parsed(Some((Scalar(KindOf(p[start]).value), "")), p[start + 1..])
    {
      hide FunctionEnd, Until;
      Slices(p, start, start + 1, start + 1);
    }

    static lemma FunctionKind(p: string, start: nat, index: nat)
      requires start < |p| && p[start] == 'm' && index == start + FunctionEnd(p[start..])
      ensures index <= |p| && ParseKind(p[start..]) == Parsed(Some((FUNC_TYPE, p[start..index])), p[index..])
    {
      hide FunctionEnd, Until;
      Slices(p, start, start, index);
    }

    static lemma ClassKind(p: string, start: nat, index: nat)
      requires start + 2 <= |p| && p[start] == 'o' && index == start + 2 + Until(p[start + 2..], {'*', ','})
      ensures index <= |p| && ParseKind(p[start..]) == Parsed(Some((CLASS_TYPE, p[start + 2..index])), p[index..])
    {
      hide FunctionEnd, Until;
      Slices(p, start, start + 2, index);
    }

    static lemma OtherKind(p: string, start: nat)
      requires start < |p| && KindOf(p[start]).None? && p[start] != 'm' && (p[start] == 'o' ==> |p| < start + 2)
      ensures ParseKind(p[start..]) == if p[start] == 'o' then Abort else Parsed(None, p[start..])
    {
      hide FunctionEnd, Until;
    }

    /** The kind of one parameter from start on; false when the text is too short to hold it. */
    static method ParseKindAt(p: string, start: nat) returns (ok: bool, kind: Option<(DeclKind, string)>, index: nat)
      requires start < |p|
      ensures var r := ParseKind(p[start..]);
        if r.Abort? then !ok else ok && kind == r.value && start <= index <= |p| && p[index..] == r.rest
    {
      hide ParseKind, Until, FunctionEnd;
      ok, kind, index := true, None, start;
      if KindOf(p[start]).Some? {
        ScalarKind(p, start);
        kind := Some((Scalar(KindOf(p[start]).value), ""));
        index := start + 1;
      } else if p[start] == 'm' {
        index := ScanFunction(p, start);
        FunctionKind(p, start, index);
        kind := Some((FUNC_TYPE, p[start..index]));
      } else if p[start] == 'o' && start + 2 <= |p| {
        index := Scan(p, start + 2, {'*', ','});
        ClassKind(p, start, index);
        kind := Some((CLASS_TYPE, p[start + 2..index]));
      } else {
        OtherKind(p, start);
        ok := p[start] != 'o';
      }
    }

    static method CountStars(p: string, from: nat) returns (dimension: nat)
      requires from <= |p|
      ensures dimension == LeadingStars(p[from..])
    {
      dimension := 0;
      while from + dimension < |p| && p[from + dimension] == '*'
        invariant from + dimension <= |p| && LeadingStars(p[from..]) == dimension + LeadingStars(p[from + dimension..])
      {
        assert p[from + dimension..][1..] == p[from + dimension + 1..];
        dimension := dimension + 1;
      }
    }

    static lemma Comma(p: string, from: nat, dimension: nat)
      requires from + dimension <= |p|
      ensures p[from..][dimension..] == p[from + dimension..]
      ensures from + dimension < |p| ==> p[from + dimension..][1..] == p[from + dimension + 1..]
    {
    }

    /** One declaration and the comma behind it. */
    static method ParseParameterAt(p: string, start: nat) returns (ok: bool, decl: Option<Decl>, index: nat)
      requires start < |p|
      ensures var r := ParseParameter(p[start..]);
        if r.Abort? then !ok else ok && decl == r.value && start < index <= |p| && p[index..] == r.rest
    {
      hide ParseKind, LeadingStars;
      var kind: Option<(DeclKind, string)>;
      ok, kind, index := ParseKindAt(p, start);
      decl := None;
      if ok {
        var dimension := CountStars(p, index);
        Comma(p, index, dimension);
        if kind.Some? { decl := Some(Decl(kind.value.0, kind.value.1, dimension)); }
        index := index + dimension;
        if index < |p| { index := index + 1; }
      }
    }

    /** Takes the parameter types out of the text behind the last colon. */
    method ParseParameters(parameters: string) returns (ok: bool)
      modifies this`declarations
      ensures var r := ParseAll(parameters);
        if r.None? then !ok else ok && declarations == old(declarations) + r.value
    {
      hide ParseParameter, Sofar;
      var index := 0;
      assert parameters[0..] == parameters;
      ghost var start := declarations;
      Nothing(start, parameters);
      while index < |parameters|
        invariant index <= |parameters| && Sofar(start, parameters, declarations, parameters[index..])
      {
        OneMore(start, parameters, declarations, parameters[index..]);
        var good, decl, next := ParseParameterAt(parameters, index);
        if !good { return false; }
        declarations := declarations + [decl];
        index := next;
      }
      assert parameters[index..] == "";
      Finished(start, parameters, declarations);
      return true;
    }

    /** done holds the start, and what has been taken out of p so far. */
    static ghost predicate Sofar(start: seq<Option<Decl>>, p: string, done: seq<Option<Decl>>, rest: string) {
      var r := ParseAll(rest);
      var whole := ParseAll(p);
      if r.None? then whole.None? else whole.Some? && start + whole.value == done + r.value
    }

    static lemma Nothing(start: seq<Option<Decl>>, p: string)
      ensures Sofar(start, p, start, p)
    {
    }

    static lemma OneMore(start: seq<Option<Decl>>, p: string, done: seq<Option<Decl>>, rest: string)
      requires rest != "" && Sofar(start, p, done, rest)
      ensures var one := ParseParameter(rest);
        if one.Abort? then ParseAll(p).None? else Sofar(start, p, done + [one.value], one.rest)
    {
      var one := ParseParameter(rest);
      if one.Parsed? {
        var others := ParseAll(one.rest);
        if others.Some? { assert done + ([one.value] + others.value) == (done + [one.value]) + others.value; }
      }
    }

    static lemma Finished(start: seq<Option<Decl>>, p: string, done: seq<Option<Decl>>)
      requires Sofar(start, p, done, "")
      ensures ParseAll(p).Some? && start + ParseAll(p).value == done
    {
      assert done + [] == done;
    }
  }
}

/** The task assistant `ChatbotTareas`: the key test made at start-up, the
    guards and state of a query (`procesarConsulta`, split at its `await`),
    the reading of the HTTP answer of the Groq API, the error texts, the
    markup rewrite of a shown message, and the task lines of the prompt. */
module Chatbot {
  import opened Wrappers
  import opened Text
  import opened Tasks
  import opened Config

  /** The placeholder key of the configuration template. */
  const ClavePlantilla := "TU_GROQ_API_KEY_AQUI"

  /** The key test of `validarConfiguracion`: present, not empty, not the
      placeholder and at least 20 characters long. */
  predicate ClaveUtilizable(clave: Option<string>)
  {
    Truthy(clave) && clave.value != ClavePlantilla && |clave.value| >= 20
  }

  /** The chatbot's key test and `tieneAPIKey` disagree on exactly one
      length: every key `tieneAPIKey` accepts passes the chatbot's test,
      while a 20-character key other than the placeholder passes the
      chatbot's test and fails `tieneAPIKey`. */
  lemma UmbralesDeClave(clave: string)
    ensures |clave| > 20 ==> ClaveUtilizable(Some(clave))
    ensures ClaveUtilizable(Some(clave)) && !(|clave| > 20) <==> |clave| == 20 && clave != ClavePlantilla
  {
  }

  // ---------------------------------------------------------------------
  // The markup rewrite of `mostrarRespuesta`

  /** The characters a regular-expression `.` does not match. */
  predicate IsLineTerminator(c: char)
  {
    c == '\n' || c == '\r' || c == '\U{2028}' || c == '\U{2029}'
  }

  /** `replace(/\n/g, '<br>')`. */
  function ReplaceNewlines(s: string): (r: string)
    ensures forall i :: 0 <= i < |r| ==> r[i] != '\n'
    ensures (forall i :: 0 <= i < |s| ==> s[i] != '\n') ==> r == s
    decreases |s|
  {
    if s == [] then []
    else (if s[0] == '\n' then "<br>" else [s[0]]) + ReplaceNewlines(s[1..])
  }

  /** The newline pass works character by character: it distributes over
      concatenation, and each character is itself or, for a line feed,
      `<br>`. */
  lemma {:induction false} ReplaceNewlinesConcat(a: string, b: string)
    ensures ReplaceNewlines(a + b) == ReplaceNewlines(a) + ReplaceNewlines(b)
    decreases |a|
  {
    if a == [] {
      assert a + b == b;
    } else {
      assert (a + b)[0] == a[0] && (a + b)[1..] == a[1..] + b;
      ReplaceNewlinesConcat(a[1..], b);
    }
  }

  /** Where the closing delimiter of a lazy `delim(.*?)delim` match lies in
      `t`, the text after the opening delimiter: the first place the
      delimiter occurs before any line terminator. */
  function FindClose(t: string, delim: string): (r: Option<nat>)
    requires delim != []
    ensures r.Some? ==> r.value + |delim| <= |t| && t[r.value..r.value + |delim|] == delim
    decreases |t|
  {
    if StartsWith(t, delim) then Some(0)
    else if t == [] || IsLineTerminator(t[0]) then None
    else
      match FindClose(t[1..], delim)
      case None => None
      case Some(j) => Some(j + 1)
  }

  /** A found closing delimiter is the first occurrence of the delimiter,
      with no line break before it. */
  lemma {:induction false} FindCloseFirst(t: string, delim: string)
    requires delim != []
    ensures var r := FindClose(t, delim);
      r.Some? ==> forall k :: 0 <= k < r.value ==> !IsLineTerminator(t[k]) && !StartsWith(t[k..], delim)
    decreases |t|
  {
    if !StartsWith(t, delim) && t != [] && !IsLineTerminator(t[0]) && FindClose(t, delim).Some? {
      FindCloseFirst(t[1..], delim);
      forall k | 1 <= k < FindClose(t, delim).value
        ensures !IsLineTerminator(t[k]) && !StartsWith(t[k..], delim)
      {
        assert t[k] == t[1..][k - 1] && t[k..] == t[1..][k - 1..];
      }
    }
  }

  /** When the search finds nothing, the delimiter occurs nowhere before
      the first line break. */
  lemma {:induction false} FindCloseAbsent(t: string, delim: string)
    requires delim != []
    ensures FindClose(t, delim).None? ==>
      forall k :: 0 <= k <= |t| && (forall m :: 0 <= m < k ==> !IsLineTerminator(t[m])) ==> !StartsWith(t[k..], delim)
    decreases |t|
  {
    if !StartsWith(t, delim) && t != [] && !IsLineTerminator(t[0]) && FindClose(t, delim).None? {
      FindCloseAbsent(t[1..], delim);
      forall k | 1 <= k <= |t| && (forall m :: 0 <= m < k ==> !IsLineTerminator(t[m]))
        ensures !StartsWith(t[k..], delim)
      {
        assert t[k..] == t[1..][k - 1..];
        assert forall m :: 0 <= m < k - 1 ==> t[1..][m] == t[m + 1];
      }
    }
  }

  /** `replace(/<delim>(.*?)<delim>/g, open + '$1' + close)`: scanning from
      the left, each opening delimiter with a closing one on the same line
      wraps the text between them; anything else is copied. */
  function ReplaceDelim(s: string, delim: string, open: string, close: string): string
    requires delim != []
    decreases |s|
  {
    if s == [] then []
    else if StartsWith(s, delim) && FindClose(s[|delim|..], delim).Some? then
      var j := FindClose(s[|delim|..], delim).value;
      open + s[|delim|..|delim| + j] + close + ReplaceDelim(s[|delim| + j + |delim|..], delim, open, close)
    else [s[0]] + ReplaceDelim(s[1..], delim, open, close)
  }

  /** The rewrite `mostrarRespuesta` applies to a message before showing it:
      line breaks, then bold, then emphasis. */
  function Render(mensaje: string): string
  {
    ReplaceDelim(ReplaceDelim(ReplaceNewlines(mensaje), "**", "<strong>", "</strong>"), "*", "<em>", "</em>")
  }

  /** Text without the delimiter's first character is copied unchanged. */
  lemma {:induction false} ReplaceDelimPlain(s: string, delim: string, open: string, close: string)
    requires delim != [] && forall i :: 0 <= i < |s| ==> s[i] != delim[0]
    ensures ReplaceDelim(s, delim, open, close) == s
    decreases |s|
  {
    if s != [] {
      assert !StartsWith(s, delim) by { if |delim| <= |s| { assert s[..|delim|][0] == s[0]; } }
      ReplaceDelimPlain(s[1..], delim, open, close);
    }
  }

  /** A plain prefix passes through, and the rewrite goes on after it. */
  lemma {:induction false} ReplaceDelimPlainPrefix(p: string, s: string, delim: string, open: string, close: string)
    requires delim != [] && forall i :: 0 <= i < |p| ==> p[i] != delim[0]
    ensures ReplaceDelim(p + s, delim, open, close) == p + ReplaceDelim(s, delim, open, close)
    decreases |p|
  {
    if p == [] {
      assert p + s == s;
    } else {
      var q := p + s;
      assert q[0] == p[0] && q[1..] == p[1..] + s;
      ReplaceDelimStep(q, delim, open, close);
      ReplaceDelimPlainPrefix(p[1..], s, delim, open, close);
      assert p == [p[0]] + p[1..];
    }
  }

  /** A character other than the delimiter's first is copied, and the
      rewrite goes on from the next one. */
  lemma ReplaceDelimStep(q: string, delim: string, open: string, close: string)
    requires delim != [] && q != [] && q[0] != delim[0]
    ensures ReplaceDelim(q, delim, open, close) == [q[0]] + ReplaceDelim(q[1..], delim, open, close)
  {
    assert !StartsWith(q, delim) by { if |delim| <= |q| { assert q[..|delim|][0] == q[0]; } }
  }

  /** `c` does not occur in `s`. */
  predicate SinCaracter(s: string, c: char)
  {
    c !in s
  }

  /** The rewrite adds no character that is in neither the text nor the
      inserted tags. */
  lemma {:induction false} ReplaceDelimKeepsOut(s: string, delim: string, open: string, close: string, c: char)
    requires delim != []
    requires SinCaracter(s, c) && SinCaracter(open, c) && SinCaracter(close, c)
    ensures SinCaracter(ReplaceDelim(s, delim, open, close), c)
    decreases |s|
  {
    if s != [] {
      var n := |delim|;
      if StartsWith(s, delim) && FindClose(s[n..], delim).Some? {
        var j := FindClose(s[n..], delim).value;
        ReplaceDelimKeepsOut(s[n + j + n..], delim, open, close, c);
        PairKeepsOut(s, delim, open, close, c);
      } else {
        ReplaceDelimKeepsOut(s[1..], delim, open, close, c);
        StepKeepsOut(s, delim, open, close, c);
      }
    }
  }

  /** One step of `ReplaceDelimKeepsOut` over a matched pair. */
  lemma PairKeepsOut(s: string, delim: string, open: string, close: string, c: char)
    requires delim != [] && StartsWith(s, delim) && FindClose(s[|delim|..], delim).Some?
    requires SinCaracter(s, c) && SinCaracter(open, c) && SinCaracter(close, c)
    requires var n, j := |delim|, FindClose(s[|delim|..], delim).value;
      SinCaracter(ReplaceDelim(s[n + j + n..], delim, open, close), c)
    ensures SinCaracter(ReplaceDelim(s, delim, open, close), c)
  {
    ReplaceDelimPair(s, delim, open, close);
  }

  /** One step of `ReplaceDelimKeepsOut` over a character that opens no
      pair. */
  lemma StepKeepsOut(s: string, delim: string, open: string, close: string, c: char)
    requires delim != [] && s != []
    requires !(StartsWith(s, delim) && FindClose(s[|delim|..], delim).Some?)
    requires SinCaracter(s, c) && SinCaracter(ReplaceDelim(s[1..], delim, open, close), c)
    ensures SinCaracter(ReplaceDelim(s, delim, open, close), c)
  {
    assert ReplaceDelim(s, delim, open, close) == [s[0]] + ReplaceDelim(s[1..], delim, open, close);
  }

  /** The rewrite of a text that opens with a matched pair. */
  lemma ReplaceDelimPair(s: string, delim: string, open: string, close: string)
    requires delim != [] && StartsWith(s, delim) && FindClose(s[|delim|..], delim).Some?
    ensures var n, j := |delim|, FindClose(s[|delim|..], delim).value;
      ReplaceDelim(s, delim, open, close)
      == open + s[n..n + j] + close + ReplaceDelim(s[n + j + n..], delim, open, close)
  {
  }

  /** The closing delimiter right after a plain run of text is found there. */
  lemma {:induction false} FindCloseAfter(x: string, delim: string, rest: string)
    requires delim != []
    requires forall i :: 0 <= i < |x| ==> x[i] != delim[0] && !IsLineTerminator(x[i])
    ensures FindClose(x + delim + rest, delim) == Some(|x|)
    decreases |x|
  {
    var t := x + delim + rest;
    if x == [] {
      assert t[..|delim|] == delim;
    } else {
      assert !StartsWith(t, delim) by { if |delim| <= |t| { assert t[..|delim|][0] == x[0]; } }
      assert t[1..] == x[1..] + delim + rest;
      FindCloseAfter(x[1..], delim, rest);
    }
  }

  /** An opening delimiter with no closing one on its line is found to be
      unmatched. */
  lemma {:induction false} FindCloseNone(x: string, delim: string)
    requires delim != [] && forall i :: 0 <= i < |x| ==> x[i] != delim[0]
    ensures FindClose(x, delim) == None
    decreases |x|
  {
    if x != [] {
      assert !StartsWith(x, delim) by { if |delim| <= |x| { assert x[..|delim|][0] == x[0]; } }
      FindCloseNone(x[1..], delim);
    }
  }

  /** A text that is free of `*` and of line breaks. */
  predicate Llano(x: string)
  {
    forall i :: 0 <= i < |x| ==> x[i] != '*' && !IsLineTerminator(x[i])
  }

  /** Plain text is shown as it is. */
  lemma RenderPlain(x: string)
    requires Llano(x)
    ensures Render(x) == x
  {
    ReplaceDelimPlain(x, "**", "<strong>", "</strong>");
    ReplaceDelimPlain(x, "*", "<em>", "</em>");
  }

  /** A delimiter, a plain run of text and the delimiter again become the
      run between the two tags. */
  lemma PairPass(x: string, delim: string, open: string, close: string)
    requires delim != []
    requires forall i :: 0 <= i < |x| ==> x[i] != delim[0] && !IsLineTerminator(x[i])
    ensures ReplaceDelim(delim + x + delim, delim, open, close) == open + x + close
  {
    var s := delim + x + delim;
    var n := |delim|;
    assert s[..n] == delim;
    assert s[n..] == x + delim + [];
    FindCloseAfter(x, delim, []);
    assert s[n..n + |x|] == x;
    assert s[n + |x| + n..] == [];
  }

  /** `**x**` becomes bold text. */
  lemma RenderBold(x: string)
    requires Llano(x)
    ensures Render("**" + x + "**") == "<strong>" + x + "</strong>"
  {
    var b := "**" + x + "**";
    assert forall i :: 0 <= i < |b| ==> b[i] != '\n';
    PairPass(x, "**", "<strong>", "</strong>");
    var strong := "<strong>" + x + "</strong>";
    ReplaceDelimPlain(strong, "*", "<em>", "</em>");
  }

  /** `*x*` becomes emphasised text. */
  lemma RenderEm(x: string)
    requires Llano(x)
    ensures Render("*" + x + "*") == "<em>" + x + "</em>"
  {
    var e := "*" + x + "*";
    assert forall i :: 0 <= i < |e| ==> e[i] != '\n';
    EmAfterBold(x);
    PairPass(x, "*", "<em>", "</em>");
  }

  /** A star without a partner on its line stays. */
  lemma RenderLoneStar(x: string)
    requires Llano(x)
    ensures Render("*" + x) == "*" + x
  {
    var l := "*" + x;
    assert forall i :: 0 <= i < |l| ==> l[i] != '\n';
    LoneStarBold(x);
    FindCloseNone(x, "*");
    assert l[1..] == x;
    ReplaceDelimPlain(x, "*", "<em>", "</em>");
  }

  /** A single star is too short to open a bold pair. */
  lemma StarAlone(delim: string, open: string, close: string)
    requires |delim| == 2
    ensures ReplaceDelim("*", delim, open, close) == "*"
  {
    assert !StartsWith("*", delim);
    assert "*"[1..] == [];
  }

  /** The bold pass leaves `*x*` alone. */
  lemma EmAfterBold(x: string)
    requires Llano(x)
    ensures ReplaceDelim("*" + x + "*", "**", "<strong>", "</strong>") == "*" + x + "*"
  {
    var e := "*" + x + "*";
    StarAlone("**", "<strong>", "</strong>");
    if x == [] {
      assert e == "**";
      assert e[2..] == [];
      assert FindClose([], "**") == None;
      assert e[1..] == "*";
    } else {
      assert !StartsWith(e, "**") by { assert e[..2][1] == x[0]; }
      assert e[1..] == x + "*";
      ReplaceDelimPlainPrefix(x, "*", "**", "<strong>", "</strong>");
    }
  }

  /** The bold pass leaves `*x` alone. */
  lemma LoneStarBold(x: string)
    requires Llano(x)
    ensures ReplaceDelim("*" + x, "**", "<strong>", "</strong>") == "*" + x
  {
    var l := "*" + x;
    if x == [] {
      assert !StartsWith(l, "**");
    } else {
      assert !StartsWith(l, "**") by { assert l[..2][1] == x[0]; }
      assert l[1..] == x;
      ReplaceDelimPlain(x, "**", "<strong>", "</strong>");
    }
  }

  /** A shown message never holds a line feed: they have all become `<br>`. */
  lemma RenderSinSaltos(mensaje: string)
    ensures SinCaracter(Render(mensaje), '\n')
  {
    var a := ReplaceNewlines(mensaje);
    ReplaceDelimKeepsOut(a, "**", "<strong>", "</strong>", '\n');
    ReplaceDelimKeepsOut(ReplaceDelim(a, "**", "<strong>", "</strong>"), "*", "<em>", "</em>", '\n');
  }

  // ---------------------------------------------------------------------
  // The answer of the API and the error texts

  /** How `llamarGroqAPI` ends: with the answer's text (`None` for the
      `null` it returns when there is none), or by throwing an error with a
      message. */
  datatype Resultado = Contenido(texto: Option<string>) | Falla(mensaje: string)

  /** `llamarGroqAPI` once the HTTP answer is known: its status and the
      `choices[0].message.content` field, `None` when missing. */
  function LlamarGroqAPI(status: nat, contenido: Option<string>): (r: Resultado)
    ensures r.Falla? <==> !(200 <= status <= 299)
    ensures r.Contenido? && r.texto.Some? ==> r.texto.value != [] && Trim(r.texto.value) == r.texto.value
  {
    if !(200 <= status <= 299) then
      if status == 429 then Falla("Límite de requests excedido")
      else if status == 401 then Falla("API Key inválida")
      else Falla("Error " + NatToString(status))
    else if contenido.Some? && Trim(contenido.value) != [] then
      TrimIdempotent(contenido.value);
      Contenido(Some(Trim(contenido.value)))
    else Contenido(None)
  }

  /** `manejarError`. */
  function ManejarError(mensaje: string): string
  {
    "❌ Error: "
    + (if Contains(mensaje, "Límite de requests") then "Demasiadas consultas. Espera 30 segundos."
       else if Contains(mensaje, "API Key inválida") then "Verifica tu API Key de Groq."
       else mensaje)
  }

  /** A text none of whose characters starts `sub` does not contain it. */
  lemma {:induction false} NoContiene(s: string, sub: string)
    requires sub != [] && forall i :: 0 <= i < |s| ==> s[i] != sub[0]
    ensures !Contains(s, sub)
    decreases |s|
  {
    if s != [] {
      assert !StartsWith(s, sub) by { if |sub| <= |s| { assert s[..|sub|][0] == s[0]; } }
      NoContiene(s[1..], sub);
    } else {
      assert !StartsWith(s, sub);
    }
  }

  /** The error text a failed request ends in: a fixed advice for 429 and
      401, the status code otherwise, and the empty-answer message when a
      successful request carries no text. */
  lemma MensajesDeError(status: nat, contenido: Option<string>)
    ensures var r := LlamarGroqAPI(status, contenido);
      && (status == 429 ==> ManejarError(r.mensaje) == "❌ Error: " + "Demasiadas consultas. Espera 30 segundos.")
      && (status == 401 ==> ManejarError(r.mensaje) == "❌ Error: " + "Verifica tu API Key de Groq.")
      && (r.Falla? && status != 429 && status != 401 ==>
            ManejarError(r.mensaje) == "❌ Error: " + ("Error " + NatToString(status)))
      && (r == Contenido(None) ==> ManejarError(MensajeDeFalla(r)) == "❌ Error: " + "Respuesta vacía")
  {
    var r := LlamarGroqAPI(status, contenido);
    if status == 429 {
      ErrorLimite();
    } else if status == 401 {
      ErrorClave(r.mensaje);
    } else if r.Falla? {
      ErrorStatus(status);
    }
    if r == Contenido(None) {
      ErrorVacio(MensajeDeFalla(r));
    }
  }

  lemma ErrorLimite()
    ensures ManejarError("Límite de requests excedido") == "❌ Error: " + "Demasiadas consultas. Espera 30 segundos."
  {
    var m := "Límite de requests excedido";
    assert StartsWith(m, "Límite de requests");
  }

  lemma ErrorClave(m: string)
    requires m == "API Key inválida"
    ensures ManejarError(m) == "❌ Error: " + "Verifica tu API Key de Groq."
  {
    assert Contains(m, "API Key inválida") by { ContieneASiMismo(m); }
    assert forall i :: 0 <= i < |m| ==> m[i] != 'L';
    assert !Contains(m, "Límite de requests") by { NoContiene(m, "Límite de requests"); }
  }

  /** Every text contains itself. */
  lemma ContieneASiMismo(s: string)
    ensures Contains(s, s)
  {
    assert s[..|s|] == s;
  }

  lemma ErrorStatus(status: nat)
    ensures ManejarError("Error " + NatToString(status)) == "❌ Error: " + ("Error " + NatToString(status))
  {
    var m := "Error " + NatToString(status);
    assert forall i :: 0 <= i < |m| ==> m[i] != 'L' && m[i] != 'A';
    NoContiene(m, "Límite de requests");
    NoContiene(m, "API Key inválida");
  }

  lemma ErrorVacio(m: string)
    requires m == "Respuesta vacía"
    ensures ManejarError(m) == "❌ Error: " + "Respuesta vacía"
  {
    assert forall i :: 0 <= i < |m| ==> m[i] != 'L' && m[i] != 'A';
    NoContiene(m, "Límite de requests");
    NoContiene(m, "API Key inválida");
  }

  /** The message of the error a query ends in: the thrown one, or
      `Respuesta vacía` for an answer without text. */
  function MensajeDeFalla(r: Resultado): string
  {
    if r.Falla? then r.mensaje else "Respuesta vacía"
  }

  /** `verificarConexion`: the connection is good when the model answers
      exactly `OK`; a thrown error counts as no connection. */
  function VerificarConexion(r: Resultado): bool
  {
    r == Contenido(Some("OK"))
  }

  lemma ConexionSi(status: nat, contenido: Option<string>)
    ensures VerificarConexion(LlamarGroqAPI(status, contenido)) <==>
      200 <= status <= 299 && contenido.Some? && Trim(contenido.value) == "OK"
  {
    var r := LlamarGroqAPI(status, contenido);
    if 200 <= status <= 299 && contenido.Some? {
      var t := Trim(contenido.value);
      if t != [] {
        assert r == Contenido(Some(t));
      } else {
        assert r == Contenido(None);
        assert t != "OK";
      }
    }
  }

  // ---------------------------------------------------------------------
  // The task lines of the prompt

  /** The label of a task whose due date is `dias` days away. */
  function EstadoFecha(dias: int): string
  {
    if dias < 0 then "(VENCIDA - hace " + NatToString(-dias) + " días)"
    else if dias == 0 then "(HOY - URGENTE)"
    else if dias == 1 then "(MAÑANA)"
    else "(en " + NatToString(dias) + " días)"
  }

  predicate AllDigits(s: string)
  {
    forall i :: 0 <= i < |s| ==> IsDigit(s[i])
  }

  /** Reads a label back as the day difference it states. */
  function LeerEstado(s: string): Option<int>
  {
    if s == "(HOY - URGENTE)" then Some(0)
    else if s == "(MAÑANA)" then Some(1)
    else if StartsWith(s, "(VENCIDA - hace ") && EndsWith(s, " días)") && |s| > 22
            && AllDigits(s[16..|s| - 6]) then
      var n: int := DigitsToNat(s[16..|s| - 6]);
      Some(-n)
    else if StartsWith(s, "(en ") && EndsWith(s, " días)") && |s| > 10 && AllDigits(s[4..|s| - 6]) then
      Some(DigitsToNat(s[4..|s| - 6]))
    else None
  }

  /** Every label reads back as its day difference, so distinct differences
      get distinct labels. */
  lemma EstadoFechaRoundTrip(dias: int)
    ensures LeerEstado(EstadoFecha(dias)) == Some(dias)
  {
    if dias < 0 {
      RoundTripVencida(dias);
    } else if dias >= 2 {
      RoundTripFutura(dias);
    }
  }

  lemma RoundTripVencida(dias: int)
    requires dias < 0
    ensures LeerEstado(EstadoFecha(dias)) == Some(dias)
  {
    var n: nat := -dias;
    var digitos := NatToString(n);
    assert EstadoFecha(dias) == "(VENCIDA - hace " + digitos + " días)";
    DigitsRoundTrip(n);
    LeerVencida(digitos);
  }

  lemma RoundTripFutura(dias: int)
    requires dias >= 2
    ensures LeerEstado(EstadoFecha(dias)) == Some(dias)
  {
    DigitsRoundTrip(dias);
    LeerFutura(NatToString(dias));
  }

  /** An overdue label reads back as minus the number it holds. */
  lemma LeerVencida(n: string)
    requires n != [] && AllDigits(n)
    ensures LeerEstado("(VENCIDA - hace " + n + " días)") == Some(-(DigitsToNat(n) as int))
  {
    var s := "(VENCIDA - hace " + n + " días)";
    assert |s| == 22 + |n|;
    assert s != "(HOY - URGENTE)" && s != "(MAÑANA)";
    assert s[..16] == "(VENCIDA - hace ";
    assert s[|s| - 6..] == " días)";
    assert s[16..|s| - 6] == n;
  }

  /** A label of a later day reads back as the number it holds. */
  lemma LeerFutura(n: string)
    requires n != [] && AllDigits(n)
    ensures LeerEstado("(en " + n + " días)") == Some(DigitsToNat(n))
  {
    var s := "(en " + n + " días)";
    assert |s| == 10 + |n|;
    assert s != "(HOY - URGENTE)" && s != "(MAÑANA)" by { assert s[1] == 'e'; }
    assert !StartsWith(s, "(VENCIDA - hace ") by { assert s[1] == 'e'; }
    assert s[..4] == "(en ";
    assert s[|s| - 6..] == " días)";
    assert s[4..|s| - 6] == n;
  }

  lemma EstadoFechaInjective(a: int, b: int)
    ensures EstadoFecha(a) == EstadoFecha(b) <==> a == b
  {
    EstadoFechaRoundTrip(a);
    EstadoFechaRoundTrip(b);
  }

  /** The line of the task numbered `numero` (1-based), whose due date is
      `dias` days away. */
  function Entrada(numero: nat, t: Task, dias: int): string
  {
    NatToString(numero) + Campos(t) + " " + EstadoFecha(dias)
  }

  /** The fields of a task as a line shows them, after its number. */
  function Campos(t: Task): (r: string)
    ensures r != [] && r[0] == '.'
  {
    ". Materia: " + (if t.titulo != [] then t.titulo else "Sin materia")
    + "\nDescripción: " + (if t.descripcion != [] then t.descripcion else "Sin descripción")
    + "\nFecha límite: " + t.fecha
  }

  /** The lines of all tasks, numbered from 1 in list order. */
  function Entradas(tareas: seq<Task>, dias: seq<int>): (r: seq<string>)
    requires |dias| == |tareas|
    ensures |r| == |tareas|
  {
    seq(|tareas|, i requires 0 <= i < |tareas| => Entrada(i + 1, tareas[i], dias[i]))
  }

  const SinTareas := "Danielle no tiene tareas registradas."

  /** The task part of the prompt: the fixed no-tasks text exactly when
      the list is empty, the numbered lines otherwise. */
  function ContextoTareas(tareas: seq<Task>, dias: seq<int>): (r: string)
    requires |dias| == |tareas|
    ensures r == SinTareas <==> |tareas| == 0
  {
    if |tareas| == 0 then SinTareas
    else
      var e := Entradas(tareas, dias);
      assert e[0] == NatToString(1) + (Campos(tareas[0]) + " " + EstadoFecha(dias[0]));
      JoinFirst(e, "\n\n");
      Join(e, "\n\n")
  }

  /** A join of non-empty parts starts with the first character of the
      first part. */
  lemma JoinFirst(parts: seq<string>, sep: string)
    requires parts != [] && parts[0] != []
    ensures Join(parts, sep) != [] && Join(parts, sep)[0] == parts[0][0]
  {
  }

  /** Each line starts with its task's position counted from 1, and ends
      with the label of its day difference, which reads back. */
  lemma EntradasNumeradas(tareas: seq<Task>, dias: seq<int>, i: nat)
    requires |dias| == |tareas| && i < |tareas|
    ensures LeadingCount(Entradas(tareas, dias)[i]) == i + 1
    ensures EndsWith(Entradas(tareas, dias)[i], EstadoFecha(dias[i]))
    ensures LeerEstado(EstadoFecha(dias[i])) == Some(dias[i])
  {
    assert Entradas(tareas, dias)[i] == Entrada(i + 1, tareas[i], dias[i]);
    EntradaNumerada(i + 1, tareas[i], dias[i]);
    EstadoFechaRoundTrip(dias[i]);
  }

  /** The line of task `numero` opens with that number and closes with
      its day-difference label. */
  lemma EntradaNumerada(numero: nat, t: Task, dias: int)
    ensures LeadingCount(Entrada(numero, t, dias)) == numero
    ensures EndsWith(Entrada(numero, t, dias), EstadoFecha(dias))
  {
    var e := Entrada(numero, t, dias);
    var n := NatToString(numero);
    var c := Campos(t);
    var rest := c + " " + EstadoFecha(dias);
    assert e == n + rest;
    assert rest[0] == c[0];
    LeadingDigitsOf(n, rest);
    assert e == (n + c + " ") + EstadoFecha(dias);
    EndsWithConcat(n + c + " ", EstadoFecha(dias));
    DigitsRoundTrip(numero);
  }

  /** The prompt `construirContexto` sends, from the query, today's date
      text and weekday, and the task part. */
  function Prompt(consulta: string, fechaHoy: string, diaSemana: string, contexto: string): string
  {
    "Eres un asistente para Danielle, estudiante en Yumbo, Colombia.\nFecha actual: " + fechaHoy
    + " (" + diaSemana + ")\nTareas:\n" + contexto
    + "\nResponde en español, amigable, con emojis. Consulta: " + consulta
  }

  /** The query is the end of the prompt, right after `Consulta: `. */
  lemma PromptTerminaEnConsulta(consulta: string, fechaHoy: string, diaSemana: string, contexto: string)
    ensures EndsWith(Prompt(consulta, fechaHoy, diaSemana, contexto), "Consulta: " + consulta)
  {
    var p := Prompt(consulta, fechaHoy, diaSemana, contexto);
    var head := "Eres un asistente para Danielle, estudiante en Yumbo, Colombia.\nFecha actual: " + fechaHoy
      + " (" + diaSemana + ")\nTareas:\n" + contexto + "\nResponde en español, amigable, con emojis. ";
    assert p == head + ("Consulta: " + consulta);
  }

  // ---------------------------------------------------------------------
  // The chatbot object

  /** The five message kinds `mostrarRespuesta` has an icon for; every
      call passes one of them. */
  datatype TipoRespuesta = Success | Error | Warning | Loading | Info

  /** The kind's name as it appears in the `respuesta-<tipo>` class. */
  function NombreTipo(tipo: TipoRespuesta): string
  {
    match tipo
    case Success => "success"
    case Error => "error"
    case Warning => "warning"
    case Loading => "loading"
    case Info => "info"
  }

  /** One message as `mostrarRespuesta` shows it. */
  datatype Respuesta = Respuesta(tipo: TipoRespuesta, activa: bool, icono: string, mensaje: string)

  /** The markup a message is shown with, without the template's layout
      whitespace: the kind's class, ` active` while loading, the icon and
      the rewritten text. */
  function Html(r: Respuesta): string
  {
    "<div class=\"respuesta-" + NombreTipo(r.tipo) + (if r.activa then " active" else "") + "\">"
    + "<span class=\"respuesta-icono\">" + r.icono + "</span>"
    + "<div class=\"respuesta-contenido\">" + Render(r.mensaje) + "</div></div>"
  }

  /** The icon table of `mostrarRespuesta`. */
  function IconoRespuesta(tipo: TipoRespuesta): string
  {
    match tipo
    case Success => "✅"
    case Error => "❌"
    case Warning => "⚠️"
    case Loading => "⏳"
    case Info => "ℹ️"
  }

  /** `mostrarRespuesta(mensaje, tipo, isLoading)`. */
  function Mostrar(mensaje: string, tipo: TipoRespuesta, cargando: bool): Respuesta
  {
    Respuesta(tipo, cargando, IconoRespuesta(tipo), mensaje)
  }

  const PideConsulta := "Por favor, escribe una pregunta 😊"

  class ChatbotTareas {
    var apiKey: Option<string>
    /** Whether `groqConfig` was set: only a passed key test sets it. */
    var groqConfigurado: bool
    var procesando: bool
    var botonDeshabilitado: bool
    /** The text in the query input. */
    var entrada: string
    /** The messages shown, oldest first; the last one is on screen. */
    var mostradas: seq<Respuesta>

    /** `new ChatbotTareas()`. The page builds it once the document has
        loaded, so `inicializar` runs `configurarElementos` at once: when
        the button, the input and the answer panel all exist
        (`elementos`), the key is validated against `config` on the spot. */
    constructor (config: ConfigGlobal?, elementos: bool)
      ensures !procesando && !botonDeshabilitado && entrada == []
      ensures !elementos || config == null ==> apiKey == None && !groqConfigurado && mostradas == []
      ensures elementos && config != null ==>
        apiKey == config.groqApiKey
        && (groqConfigurado <==> ClaveUtilizable(config.groqApiKey))
        && mostradas == if groqConfigurado then [] else [Mostrar(config.mensajes.sinApiKey, Warning, false)]
    {
      apiKey := None;
      groqConfigurado := false;
      procesando := false;
      botonDeshabilitado := false;
      entrada := [];
      mostradas := [];
      new;
      if elementos {
        var _ := ValidarConfiguracion(config);
      }
    }

    /** `validarConfiguracion`, `config` being `null` when the configuration
        script is missing. The warning it schedules for half a second later
        is modelled as shown. */
    method ValidarConfiguracion(config: ConfigGlobal?) returns (valida: bool)
      modifies this`apiKey, this`groqConfigurado, this`mostradas
      ensures config == null ==> !valida && apiKey == old(apiKey)
      ensures config != null ==> apiKey == config.groqApiKey && (valida <==> ClaveUtilizable(config.groqApiKey))
      ensures groqConfigurado == (old(groqConfigurado) || valida)
      ensures mostradas == old(mostradas)
                           + (if config != null && !valida then [Mostrar(config.mensajes.sinApiKey, Warning, false)] else [])
    {
      if config == null {
        return false;
      }
      apiKey := config.groqApiKey;
      if apiKey.None? || apiKey.value == [] || apiKey.value == ClavePlantilla || |apiKey.value| < 20 {
        mostradas := mostradas + [Mostrar(config.mensajes.sinApiKey, Warning, false)];
        return false;
      }
      groqConfigurado := true;
      return true;
    }

    /** `procesarConsulta` up to its `await`: the re-entrancy guard, the
        empty-query and missing-configuration warnings, and the start of a
        request. `llamada` is the query sent, `None` when none is. With
        `config` missing (`null`), both later branches read it and throw
        before the `try`, so the guard stays held and nothing is shown. */
    method IniciarConsulta(config: ConfigGlobal?) returns (llamada: Option<string>)
      modifies this`procesando, this`botonDeshabilitado, this`mostradas
      ensures old(procesando) ==>
        llamada == None && procesando && mostradas == old(mostradas) && botonDeshabilitado == old(botonDeshabilitado)
      ensures !old(procesando) && Trim(entrada) == [] ==>
        llamada == None && !procesando && botonDeshabilitado == old(botonDeshabilitado)
        && mostradas == old(mostradas) + [Mostrar(PideConsulta, Warning, false)]
      ensures !old(procesando) && Trim(entrada) != [] && config == null ==>
        llamada == None && procesando && mostradas == old(mostradas) && botonDeshabilitado == old(botonDeshabilitado)
      ensures !old(procesando) && Trim(entrada) != [] && config != null && !(groqConfigurado && Truthy(apiKey)) ==>
        llamada == None && !procesando && botonDeshabilitado == old(botonDeshabilitado)
        && mostradas == old(mostradas) + [Mostrar(config.mensajes.sinApiKey, Warning, false)]
      ensures !old(procesando) && Trim(entrada) != [] && config != null && groqConfigurado && Truthy(apiKey) ==>
        llamada == Some(Trim(entrada)) && procesando && botonDeshabilitado
        && mostradas == old(mostradas) + [Mostrar(config.mensajes.cargando, Loading, true)]
    {
      if procesando {
        return None;
      }
      procesando := true;
      var consulta := Trim(entrada);
      if consulta == [] {
        mostradas := mostradas + [Mostrar(PideConsulta, Warning, false)];
        procesando := false;
        return None;
      }
      if config == null {
        return None;
      }
      if !groqConfigurado || apiKey.None? || apiKey.value == [] {
        mostradas := mostradas + [Mostrar(config.mensajes.sinApiKey, Warning, false)];
        procesando := false;
        return None;
      }
      mostradas := mostradas + [Mostrar(config.mensajes.cargando, Loading, true)];
      botonDeshabilitado := true;
      llamada := Some(consulta);
    }

    /** `procesarConsulta` after its `await`, given how the request ended:
        a text is shown and clears the input; no text or an error shows
        the error message; the `finally` always releases the guard and the
        button. */
    method TerminarConsulta(resultado: Resultado)
      modifies this`procesando, this`botonDeshabilitado, this`mostradas, this`entrada
      ensures !procesando && !botonDeshabilitado
      ensures resultado.Contenido? && Truthy(resultado.texto) ==>
        mostradas == old(mostradas) + [Mostrar(resultado.texto.value, Success, false)] && entrada == []
      ensures !(resultado.Contenido? && Truthy(resultado.texto)) ==>
        mostradas == old(mostradas) + [Mostrar(ManejarError(MensajeDeFalla(resultado)), Error, false)]
        && entrada == old(entrada)
    {
      if resultado.Contenido? && resultado.texto.Some? && resultado.texto.value != [] {
        mostradas := mostradas + [Mostrar(resultado.texto.value, Success, false)];
        entrada := [];
      } else {
        var error := if resultado.Falla? then resultado.mensaje else "Respuesta vacía";
        mostradas := mostradas + [Mostrar(ManejarError(error), Error, false)];
      }
      procesando := false;
      botonDeshabilitado := false;
    }
  }
}

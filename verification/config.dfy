/** The page's configuration object `config` and the helpers that manage
    the Groq API key: the interactive set-up `configurarGroqAPI`, the start-up
    load `cargarAPIKey` and the test `tieneAPIKey`. Browser storage is the
    field `almacenada` (the item `groq_api_key`); a prompt answer is an
    `Option`, `None` being a cancelled prompt. */
module Config {
  import opened Wrappers
  import opened Text

  /** `CHATBOT_CONFIG.groq`. */
  const GroqUrl := "https://api.groq.com/openai/v1/chat/completions"
  const GroqModelo := "llama-3.1-8b-instant"
  const GroqMaxTokens := 400

  /** `CHATBOT_CONFIG.mensajes`. */
  const MensajeBienvenida := "👋 ¡Hola Danielle! Soy tu asistente inteligente para consultar tus tareas."
  const MensajeErrorApi := "❌ Error de conexión con Groq API. Verifica tu API key."
  const MensajeErrorGeneral := "❌ Ups, algo salió mal. Intenta de nuevo."
  const MensajeCargando := "🤔 Analizando tus tareas..."
  const MensajeSinApiKey := @"
        ⚠️ <strong>API Key de Groq no configurada</strong><br><br>
        
        🔧 <strong>Configuración rápida:</strong><br>
        1. Ve a <a href=""https://console.groq.com"" target=""_blank"">console.groq.com</a><br>
        2. Regístrate gratis<br>
        3. Crea una API key<br>
        4. Haz clic en el botón ""⚙️ Configurar API"" abajo<br><br>
        
        <button onclick=""configurarGroqAPI()"" style=""
          background: #4285f4; 
          color: white; 
          border: none; 
          padding: 10px 20px; 
          border-radius: 5px; 
          cursor: pointer;
          font-size: 14px;
        "">⚙️ Configurar API Key</button>
      "
  const MensajeConfiguracionExitosa := "✅ ¡API Key configurada correctamente! Ya puedes hacer consultas."
  const MensajeConfiguracionCancelada := "❌ Configuración cancelada. La API key es necesaria para el chatbot."

  /** The message table, as a value the chatbot reads through `config`. */
  datatype Mensajes = Mensajes(
    bienvenida: string, errorApi: string, errorGeneral: string, cargando: string,
    sinApiKey: string, configuracionExitosa: string, configuracionCancelada: string)

  const MensajesPagina := Mensajes(
    MensajeBienvenida, MensajeErrorApi, MensajeErrorGeneral, MensajeCargando,
    MensajeSinApiKey, MensajeConfiguracionExitosa, MensajeConfiguracionCancelada)

  /** The format test of `configurarGroqAPI`, applied to the answer as typed
      (before trimming): the `gsk_` prefix and more than 20 characters. */
  predicate Aceptable(clave: string)
  {
    StartsWith(clave, "gsk_") && |clave| > 20
  }

  /** How a run of `configurarGroqAPI` ends. */
  datatype Desenlace =
    | Configurada(clave: string)   // a key was accepted and stored
    | Cancelada                    // the prompt was cancelled or left blank
    | SinRespuestas                // the given answers ran out while it kept asking

  /** The outcome the answers `respuestas` lead to: the first answer that is
      blank or cancelled ends the dialogue, the first acceptable one is
      stored trimmed, and every other answer asks again. */
  function Decision(respuestas: seq<Option<string>>): Desenlace
  {
    if respuestas == [] then SinRespuestas
    else if !FilledTrimmed(respuestas[0]) then Cancelada
    else if Aceptable(respuestas[0].value) then Configurada(Trim(respuestas[0].value))
    else Decision(respuestas[1..])
  }

  /** Answer `i` is the first acceptable one, every earlier answer having
      been given and rejected. */
  predicate PrimeraAceptada(respuestas: seq<Option<string>>, i: int)
  {
    0 <= i < |respuestas| && FilledTrimmed(respuestas[i]) && Aceptable(respuestas[i].value)
    && forall j :: 0 <= j < i ==> FilledTrimmed(respuestas[j]) && !Aceptable(respuestas[j].value)
  }

  /** A key ends up configured exactly when some answer is the first
      acceptable one; the key stored is that answer trimmed, and it keeps
      the `gsk_` prefix. */
  lemma DecisionConfigurada(respuestas: seq<Option<string>>)
    ensures Decision(respuestas).Configurada? <==> exists i :: PrimeraAceptada(respuestas, i)
    ensures forall i :: PrimeraAceptada(respuestas, i) ==>
      Decision(respuestas) == Configurada(Trim(respuestas[i].value))
      && StartsWith(Decision(respuestas).clave, "gsk_")
  {
    forall i | PrimeraAceptada(respuestas, i)
      ensures Decision(respuestas) == Configurada(Trim(respuestas[i].value))
      ensures StartsWith(Decision(respuestas).clave, "gsk_")
    {
      DecisionPrimera(respuestas, i);
      AceptadaRecortada(respuestas[i].value);
    }
    if Decision(respuestas).Configurada? {
      var i := DecisionIndice(respuestas);
    }
  }

  /** The first acceptable answer decides. */
  lemma DecisionPrimera(respuestas: seq<Option<string>>, i: nat)
    requires PrimeraAceptada(respuestas, i)
    ensures Decision(respuestas) == Configurada(Trim(respuestas[i].value))
  {
    DecisionEn(respuestas, i);
    assert respuestas[i..][0] == respuestas[i];
  }

  lemma {:induction false} DecisionIndice(respuestas: seq<Option<string>>) returns (i: nat)
    requires Decision(respuestas).Configurada?
    ensures PrimeraAceptada(respuestas, i)
    decreases |respuestas|
  {
    assert respuestas != [] && FilledTrimmed(respuestas[0]);
    if Aceptable(respuestas[0].value) {
      i := 0;
    } else {
      var k := DecisionIndice(respuestas[1..]);
      i := k + 1;
      forall j | 0 <= j < i
        ensures FilledTrimmed(respuestas[j]) && !Aceptable(respuestas[j].value)
      {
        if j > 0 {
          assert respuestas[j] == respuestas[1..][j - 1];
        }
      }
      assert respuestas[i] == respuestas[1..][k];
    }
  }

  /** Trimming an acceptable answer keeps its `gsk_` prefix. */
  lemma AceptadaRecortada(clave: string)
    requires Aceptable(clave)
    ensures StartsWith(Trim(clave), "gsk_")
  {
    var i, j := TrimSpec(clave);
    assert clave[..4] == "gsk_";
    assert clave[0] == 'g' && clave[3] == '_';
    assert !IsJsSpace(clave[0]) && !IsJsSpace(clave[3]);
    assert Trim(clave)[..4] == clave[..4];
  }

  /** The format test counts the characters before trimming, so an answer
      padded with blanks passes it while the key stored is short: `gsk_`
      followed by 17 or more spaces is accepted and stored as `gsk_`,
      which `tieneAPIKey` then rejects. */
  lemma AceptadaCorta(n: nat)
    requires n >= 17
    ensures var a := "gsk_" + seq(n, _ => ' ');
      Aceptable(a) && Trim(a) == "gsk_" && !(|Trim(a)| > 20)
  {
    var a := "gsk_" + seq(n, _ => ' ');
    assert a[..4] == "gsk_";
    assert a[0] == 'g' && !IsJsSpace(a[0]);
    assert TrimStart(a) == a;
    assert a[3] == '_' && !IsJsSpace(a[3]);
    assert forall k :: 4 <= k < |a| ==> IsJsSpace(a[k]);
    TrimEndSpaces(a, 4);
  }

  lemma {:induction false} TrimEndSpaces(s: string, n: nat)
    requires n <= |s| && (forall k :: n <= k < |s| ==> IsJsSpace(s[k]))
    requires n > 0 && !IsJsSpace(s[n - 1])
    ensures TrimEnd(s) == s[..n]
    decreases |s|
  {
    if |s| > n {
      TrimEndSpaces(s[..|s| - 1], n);
    }
  }

  /** The global `config` object and the browser storage behind it. */
  class ConfigGlobal {
    /** `config.GROQ_API_KEY`. */
    var groqApiKey: Option<string>
    /** The stored item `groq_api_key`. */
    var almacenada: Option<string>
    /** `config.CHATBOT_CONFIG.mensajes`. */
    const mensajes: Mensajes

    /** `config` as the script defines it, with nothing read from storage
        yet; the page passes `MensajesPagina`. */
    constructor (almacenada: Option<string>, mensajes: Mensajes)
      ensures groqApiKey == None && this.almacenada == almacenada && this.mensajes == mensajes
    {
      groqApiKey := None;
      this.almacenada := almacenada;
      this.mensajes := mensajes;
    }

    /** `configurarGroqAPI`, with the user's successive prompt answers as
        input; each rejected answer asks again by a recursive call. */
    method ConfigurarGroqAPI(respuestas: seq<Option<string>>) returns (desenlace: Desenlace)
      modifies this
      decreases |respuestas|
      ensures desenlace == Decision(respuestas)
      ensures desenlace.Configurada? ==>
        groqApiKey == Some(desenlace.clave) && almacenada == Some(desenlace.clave)
      ensures !desenlace.Configurada? ==>
        groqApiKey == old(groqApiKey) && almacenada == old(almacenada)
    {
      if respuestas == [] {
        return SinRespuestas;
      }
      var apiKey := respuestas[0];
      if apiKey.Some? && apiKey.value != [] && Trim(apiKey.value) != [] {
        if StartsWith(apiKey.value, "gsk_") && |apiKey.value| > 20 {
          almacenada := Some(Trim(apiKey.value));
          groqApiKey := Some(Trim(apiKey.value));
          desenlace := Configurada(Trim(apiKey.value));
        } else {
          desenlace := ConfigurarGroqAPI(respuestas[1..]);
        }
      } else {
        desenlace := Cancelada;
      }
    }

    /** `cargarAPIKey`: a non-empty stored key becomes the configured one. */
    method CargarAPIKey() returns (cargada: bool)
      modifies this`groqApiKey
      ensures cargada <==> Truthy(almacenada)
      ensures cargada ==> groqApiKey == almacenada
      ensures !cargada ==> groqApiKey == old(groqApiKey)
    {
      var savedKey := almacenada;
      if savedKey.Some? && savedKey.value != [] {
        groqApiKey := savedKey;
        return true;
      }
      return false;
    }

    /** `tieneAPIKey`. */
    predicate TieneAPIKey()
      reads this
    {
      groqApiKey.Some? && |groqApiKey.value| > 20
    }
  }

  /** `tieneAPIKey` after a successful set-up holds exactly when the trimmed
      answer is longer than 20 characters; an accepted answer without
      surrounding blanks always passes. */
  lemma TieneTrasConfigurar(respuestas: seq<Option<string>>, i: nat)
    requires PrimeraAceptada(respuestas, i)
    requires Trim(respuestas[i].value) == respuestas[i].value
    ensures Decision(respuestas) == Configurada(respuestas[i].value)
    ensures |Decision(respuestas).clave| > 20
  {
    DecisionPrimera(respuestas, i);
  }

  /** The outcome is decided by the first answer that is not a rejected key. */
  lemma {:induction false} DecisionEn(respuestas: seq<Option<string>>, i: nat)
    requires i < |respuestas|
    requires forall j :: 0 <= j < i ==> FilledTrimmed(respuestas[j]) && !Aceptable(respuestas[j].value)
    ensures Decision(respuestas) == Decision(respuestas[i..])
    decreases i
  {
    if i > 0 {
      DecisionEn(respuestas[1..], i - 1);
      assert respuestas[1..][i - 1..] == respuestas[i..];
    }
  }
}

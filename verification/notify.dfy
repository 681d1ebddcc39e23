/** The notification manager `GestorNotificaciones`: the payload of one
    notification, one verification pass over the task list, and the
    manager's state (permission flag, notifications shown, pending timers,
    time of the last catch-up). Showing a notification is modelled as
    appending it to the list `enviadas`. There is no record of what was
    already shown: every pass shows again whatever its buckets hold. */
module Notify {
  import opened Wrappers
  import opened Text
  import opened Calendar
  import opened Tasks
  import opened Classify
  import opened Schedule

  /** A shown notification. `icono` names the entry of the page's icon
      table whose image is used; `tag` is what the platform coalesces on. */
  datatype Notificacion = Notificacion(
    titulo: string, cuerpo: string, icono: string, tag: string,
    requireInteraction: bool, vibracion: seq<int>)

  /** The four notification types, the keys of the icon and vibration tables. */
  predicate TipoConocido(tipo: string)
  {
    tipo == "vencidas" || tipo == "hoy" || tipo == "mañana" || tipo == "pasadoMañana"
  }

  /** `iconos[tipo] || iconos.hoy`. */
  function IconoDe(tipo: string): (icono: string)
    ensures TipoConocido(icono)
    ensures TipoConocido(tipo) ==> icono == tipo
    ensures !TipoConocido(tipo) ==> icono == "hoy"
  {
    if TipoConocido(tipo) then tipo else "hoy"
  }

  /** `vibraciones[tipo] || [200, 100, 200]`. */
  function VibracionDe(tipo: string): seq<int>
  {
    if tipo == "vencidas" then [200, 100, 200, 100, 200]
    else if tipo == "hoy" then [200, 100, 200]
    else if tipo == "mañana" then [100, 50, 100]
    else if tipo == "pasadoMañana" then [50, 25, 50]
    else [200, 100, 200]
  }

  /** The notification `enviarNotificacion` builds. */
  function Construir(titulo: string, mensaje: string, tipo: string, requireInteraction: bool): Notificacion
  {
    Notificacion(titulo, mensaje, IconoDe(tipo), "tareas-" + tipo, requireInteraction, VibracionDe(tipo))
  }

  /** A type outside the tables gets today's icon and the default
      vibration, and the tag is always the type behind a fixed prefix. */
  lemma ConstruirFallback(titulo: string, mensaje: string, tipo: string, ri: bool)
    ensures var n := Construir(titulo, mensaje, tipo, ri);
      && n.tag[..7] == "tareas-" && n.tag[7..] == tipo
      && (!TipoConocido(tipo) ==> n.icono == "hoy" && n.vibracion == VibracionDe("hoy"))
      && (TipoConocido(tipo) ==> n.icono == tipo)
  {
  }

  const TituloVencidas := "😰 ¡Tareas vencidas!"
  const TituloHoy := "📝 ¡Tareas para HOY!"
  const TituloManana := "🌅 Tareas para MAÑANA"
  const TituloPasadoManana := "🗓️ Planificación"

  function Quoted(s: string): string
  {
    "\"" + s + "\""
  }

  /** Body for overdue tasks: the count, then the first title, then
      " y más..." when there are several. */
  function CuerpoVencidas(p: seq<Task>): string
    requires p != []
  {
    NatToString(|p|) + " tarea(s) vencida(s): " + p[0].titulo + (if |p| > 1 then " y más..." else "")
  }

  function CuerpoHoy(h: seq<Task>): string
    requires h != []
  {
    if |h| == 1 then Quoted(h[0].titulo) else NatToString(|h|) + " tareas para hoy"
  }

  function CuerpoManana(m: seq<Task>): string
    requires m != []
  {
    if |m| == 1 then Quoted(m[0].titulo) else NatToString(|m|) + " tareas para mañana"
  }

  function CuerpoPasadoManana(p: seq<Task>): string
    requires p != []
  {
    if |p| == 1 then "Pasado mañana: " + Quoted(p[0].titulo) else NatToString(|p|) + " tareas en 2 días"
  }

  /** The count written at the start of a body is the size of the bucket:
      always for overdue tasks, and for the other types whenever the
      bucket holds more than one task. */
  lemma CuerpoAnunciaCuenta(b: seq<Task>)
    requires b != []
    ensures LeadingCount(CuerpoVencidas(b)) == |b|
    ensures |b| > 1 ==> LeadingCount(CuerpoHoy(b)) == |b|
    ensures |b| > 1 ==> LeadingCount(CuerpoManana(b)) == |b|
    ensures |b| > 1 ==> LeadingCount(CuerpoPasadoManana(b)) == |b|
  {
    var n := NatToString(|b|);
    DigitsRoundTrip(|b|);
    var tail := " y más..." ;
    var v := " tarea(s) vencida(s): " + b[0].titulo + (if |b| > 1 then tail else "");
    assert CuerpoVencidas(b) == n + v;
    LeadingDigitsOf(n, v);
    if |b| > 1 {
      LeadingDigitsOf(n, " tareas para hoy");
      LeadingDigitsOf(n, " tareas para mañana");
      LeadingDigitsOf(n, " tareas en 2 días");
    }
  }

  /** A single-task body quotes that task's title; the overdue body always
      names the first overdue task, and ends in " y más..." when there are
      more. */
  lemma CuerpoNombraTarea(b: seq<Task>)
    requires b != []
    ensures |b| == 1 ==> CuerpoHoy(b) == Quoted(b[0].titulo) && CuerpoManana(b) == Quoted(b[0].titulo)
    ensures |b| == 1 ==> EndsWith(CuerpoPasadoManana(b), Quoted(b[0].titulo))
    ensures |b| == 1 ==> EndsWith(CuerpoVencidas(b), ": " + b[0].titulo)
    ensures |b| > 1 ==> EndsWith(CuerpoVencidas(b), ": " + b[0].titulo + " y más...")
  {
    var pre := NatToString(|b|) + " tarea(s) vencida(s)";
    assert CuerpoVencidas(b) == pre + (": " + b[0].titulo + (if |b| > 1 then " y más..." else ""));
    assert CuerpoPasadoManana(b) == "Pasado mañana: " + Quoted(b[0].titulo) || |b| > 1;
  }

  /** The four notifications a pass can show, in the order it shows them. */
  datatype Tipo = Vencidas | ParaHoy | ParaManana | ParaPasadoManana

  /** The key of each type in the icon and vibration tables. */
  function Clave(t: Tipo): (k: string)
    ensures TipoConocido(k)
  {
    match t
    case Vencidas => "vencidas"
    case ParaHoy => "hoy"
    case ParaManana => "mañana"
    case ParaPasadoManana => "pasadoMañana"
  }

  function Orden(t: Tipo): int
  {
    match t
    case Vencidas => 0
    case ParaHoy => 1
    case ParaManana => 2
    case ParaPasadoManana => 3
  }

  /** The tag a notification of each type carries. */
  function Tag(t: Tipo): string
  {
    "tareas-" + Clave(t)
  }

  /** Distinct types have distinct tags, so the platform never merges two
      notifications of one pass. */
  lemma TagsDistintos(s: Tipo, t: Tipo)
    ensures Tag(s) == Tag(t) <==> s == t
  {
    if s != t {
      assert Tag(s)[7] != Tag(t)[7];
    }
  }

  /** The bucket each type reports. */
  function BucketDe(t: Tipo): Bucket
  {
    match t
    case Vencidas => Vencida
    case ParaHoy => Hoy
    case ParaManana => Manana
    case ParaPasadoManana => PasadoManana
  }

  /** Overdue and today's notifications stay until dismissed. */
  predicate Urgente(t: Tipo)
  {
    t == Vencidas || t == ParaHoy
  }

  /** The notification of type `t` for the non-empty bucket `b`. */
  function Aviso(t: Tipo, b: seq<Task>): (n: Notificacion)
    requires b != []
    ensures n.tag == Tag(t) && n.icono == Clave(t)
    ensures n.requireInteraction <==> Urgente(t)
  {
    match t
    case Vencidas => Construir(TituloVencidas, CuerpoVencidas(b), "vencidas", true)
    case ParaHoy => Construir(TituloHoy, CuerpoHoy(b), "hoy", true)
    case ParaManana => Construir(TituloManana, CuerpoManana(b), "mañana", false)
    case ParaPasadoManana => Construir(TituloPasadoManana, CuerpoPasadoManana(b), "pasadoMañana", false)
  }

  /** The notification of type `t` when its bucket is not empty and the
      extra condition holds, else nothing. */
  function SiHay(t: Tipo, b: seq<Task>, condicion: bool): seq<Notificacion>
  {
    if |b| > 0 && condicion then [Aviso(t, b)] else []
  }

  /** The bucket of one pass that a type reports. */
  function Del(b: Buckets, t: Tipo): seq<Task>
  {
    match t
    case Vencidas => b.pasadas
    case ParaHoy => b.hoy
    case ParaManana => b.manana
    case ParaPasadoManana => b.pasadoManana
  }

  /** The buckets `categorizarTareas` computes. */
  function BucketsDe(tareas: seq<Task>, f: Fechas): (b: Buckets)
    ensures forall t :: Del(b, t) == Select(tareas, BucketDe(t), f)
  {
    Buckets(Select(tareas, Hoy, f), Select(tareas, Manana, f), Select(tareas, PasadoManana, f), Select(tareas, Vencida, f))
  }

  /** The notifications shown for the buckets `b` at hour `hora`. */
  function Avisos(b: Buckets, hora: int): seq<Notificacion>
  {
    SiHay(Vencidas, b.pasadas, true)
    + (SiHay(ParaHoy, b.hoy, true)
       + (SiHay(ParaManana, b.manana, true)
          + SiHay(ParaPasadoManana, b.pasadoManana, hora == 8)))
  }

  /** The notifications one pass of `verificarYNotificar` shows, in order,
      given the permission flag, the task list, the date strings and the
      current hour. */
  function Pase(permiso: bool, tareas: seq<Task>, f: Fechas, hora: int): seq<Notificacion>
  {
    if !permiso then [] else Avisos(BucketsDe(tareas, f), hora)
  }

  /** When a pass shows the notification of type `t`. */
  predicate Debe(t: Tipo, permiso: bool, tareas: seq<Task>, f: Fechas, hora: int)
  {
    permiso && Select(tareas, BucketDe(t), f) != [] && (t == ParaPasadoManana ==> hora == 8)
  }

  /** Types in strictly increasing order. */
  predicate Creciente(s: seq<Tipo>)
  {
    forall j, k :: 0 <= j < k < |s| ==> Orden(s[j]) < Orden(s[k])
  }

  lemma CrecienteConcat(x: seq<Tipo>, y: seq<Tipo>)
    requires Creciente(x) && Creciente(y)
    requires forall a, b :: a in x && b in y ==> Orden(a) < Orden(b)
    ensures Creciente(x + y)
  {
    forall j, k | 0 <= j < k < |x + y| ensures Orden((x + y)[j]) < Orden((x + y)[k]) {
      if k < |x| {
      } else if j >= |x| {
        assert (x + y)[j] == y[j - |x|] && (x + y)[k] == y[k - |x|];
      } else {
        assert (x + y)[j] in x && (x + y)[k] == y[k - |x|];
      }
    }
  }

  predicate Mostrada(out: seq<Notificacion>, t: Tipo)
  {
    exists k :: 0 <= k < |out| && out[k].tag == Tag(t)
  }

  /** What one pass shows: nothing without permission; otherwise one
      notification per type whose bucket is not empty (the day after
      tomorrow only at 8 o'clock), in the order overdue, today, tomorrow,
      the day after, the two urgent ones staying until dismissed. The
      returned `tipos` are the types shown, in order. */
  lemma PaseSpec(permiso: bool, tareas: seq<Task>, f: Fechas, hora: int) returns (tipos: seq<Tipo>)
    ensures var out := Pase(permiso, tareas, f, hora);
      && |out| == |tipos| <= 4
      && (forall k :: 0 <= k < |out| ==>
            out[k].tag == Tag(tipos[k])
            && (out[k].requireInteraction <==> Urgente(tipos[k])))
      && Creciente(tipos)
      && (forall t :: t in tipos <==> Debe(t, permiso, tareas, f, hora))
      && (forall t :: Mostrada(out, t) <==> Debe(t, permiso, tareas, f, hora))
  {
    if !permiso {
      tipos := [];
    } else {
      tipos := AvisosSpec(BucketsDe(tareas, f), hora);
    }
  }

  /** `PaseSpec` for given buckets. */
  lemma AvisosSpec(b: Buckets, hora: int) returns (tipos: seq<Tipo>)
    ensures var out := Avisos(b, hora);
      && |out| == |tipos| <= 4
      && (forall k :: 0 <= k < |out| ==>
            out[k].tag == Tag(tipos[k])
            && (out[k].requireInteraction <==> Urgente(tipos[k])))
      && Creciente(tipos)
      && (forall t :: t in tipos <==> Del(b, t) != [] && (t == ParaPasadoManana ==> hora == 8))
      && (forall t :: Mostrada(out, t) <==> t in tipos)
  {
    var out := Avisos(b, hora);
    var a1 := SiHay(Vencidas, b.pasadas, true);
    var a2 := SiHay(ParaHoy, b.hoy, true);
    var a3 := SiHay(ParaManana, b.manana, true);
    var a4 := SiHay(ParaPasadoManana, b.pasadoManana, hora == 8);
    var t1 := Trozo(Vencidas, b.pasadas, true);
    var t2 := Trozo(ParaHoy, b.hoy, true);
    var t3 := Trozo(ParaManana, b.manana, true);
    var t4 := Trozo(ParaPasadoManana, b.pasadoManana, hora == 8);
    tipos := t1 + (t2 + (t3 + t4));
    Concat4(a1, t1, a2, t2, a3, t3, a4, t4);
    Pertenece4(b, hora, t1, t2, t3, t4);
    assert out == a1 + (a2 + (a3 + a4));
    MostradaSiEtiquetada(out, tipos);
  }

  /** A tag is among the notifications exactly when its type is among
      their types. */
  lemma MostradaSiEtiquetada(out: seq<Notificacion>, tipos: seq<Tipo>)
    requires Etiquetas(out, tipos)
    ensures forall t :: Mostrada(out, t) <==> t in tipos
  {
    forall t ensures Mostrada(out, t) <==> t in tipos {
      if Mostrada(out, t) {
        var k :| 0 <= k < |out| && out[k].tag == Tag(t);
        TagsDistintos(t, tipos[k]);
      }
      if t in tipos {
        var k :| 0 <= k < |tipos| && tipos[k] == t;
        assert out[k].tag == Tag(t);
      }
    }
  }

  /** The notifications `out` carry the tags and urgency of the types `ts`. */
  predicate Etiquetas(out: seq<Notificacion>, ts: seq<Tipo>)
  {
    |out| == |ts|
    && forall k :: 0 <= k < |out| ==>
         out[k].tag == Tag(ts[k]) && (out[k].requireInteraction <==> Urgente(ts[k]))
  }

  /** The type one `SiHay` shows, if any. */
  lemma Trozo(t: Tipo, bt: seq<Task>, condicion: bool) returns (ts: seq<Tipo>)
    ensures Etiquetas(SiHay(t, bt, condicion), ts)
    ensures ts == if bt != [] && condicion then [t] else []
  {
    ts := if bt != [] && condicion then [t] else [];
  }

  /** Four consecutive parts, each showing at most its own type. */
  lemma Concat4(a1: seq<Notificacion>, t1: seq<Tipo>, a2: seq<Notificacion>, t2: seq<Tipo>,
                a3: seq<Notificacion>, t3: seq<Tipo>, a4: seq<Notificacion>, t4: seq<Tipo>)
    requires Etiquetas(a1, t1) && Etiquetas(a2, t2) && Etiquetas(a3, t3) && Etiquetas(a4, t4)
    requires t1 == [] || t1 == [Vencidas]
    requires t2 == [] || t2 == [ParaHoy]
    requires t3 == [] || t3 == [ParaManana]
    requires t4 == [] || t4 == [ParaPasadoManana]
    ensures Etiquetas(a1 + (a2 + (a3 + a4)), t1 + (t2 + (t3 + t4)))
    ensures Creciente(t1 + (t2 + (t3 + t4)))
  {
    CrecienteConcat(t3, t4);
    CrecienteConcat(t2, t3 + t4);
    CrecienteConcat(t1, t2 + (t3 + t4));
    EtiquetasConcat(a3, t3, a4, t4);
    EtiquetasConcat(a2, t2, a3 + a4, t3 + t4);
    EtiquetasConcat(a1, t1, a2 + (a3 + a4), t2 + (t3 + t4));
  }

  /** The types of one pass are those whose bucket is not empty, the day
      after tomorrow counting only at 8 o'clock. */
  lemma Pertenece4(b: Buckets, hora: int, t1: seq<Tipo>, t2: seq<Tipo>, t3: seq<Tipo>, t4: seq<Tipo>)
    requires t1 == if b.pasadas != [] then [Vencidas] else []
    requires t2 == if b.hoy != [] then [ParaHoy] else []
    requires t3 == if b.manana != [] then [ParaManana] else []
    requires t4 == if b.pasadoManana != [] && hora == 8 then [ParaPasadoManana] else []
    ensures forall t :: t in t1 + (t2 + (t3 + t4)) <==> Del(b, t) != [] && (t == ParaPasadoManana ==> hora == 8)
  {
    forall t ensures t in t1 + (t2 + (t3 + t4)) <==> Del(b, t) != [] && (t == ParaPasadoManana ==> hora == 8) {
      match t
      case Vencidas =>
      case ParaHoy =>
      case ParaManana =>
      case ParaPasadoManana =>
    }
  }

  lemma EtiquetasConcat(o1: seq<Notificacion>, t1: seq<Tipo>, o2: seq<Notificacion>, t2: seq<Tipo>)
    requires Etiquetas(o1, t1) && Etiquetas(o2, t2)
    ensures Etiquetas(o1 + o2, t1 + t2)
  {
    forall k | 0 <= k < |o1 + o2|
      ensures (o1 + o2)[k].tag == Tag((t1 + t2)[k])
    {
      if k >= |o1| {
        assert (o1 + o2)[k] == o2[k - |o1|] && (t1 + t2)[k] == t2[k - |t1|];
      }
    }
  }

  /** Each type's notification is the call the page makes for it. */
  lemma AvisoLiteral(b: seq<Task>)
    requires b != []
    ensures Aviso(Vencidas, b) == Construir(TituloVencidas, CuerpoVencidas(b), "vencidas", true)
    ensures Aviso(ParaHoy, b) == Construir(TituloHoy, CuerpoHoy(b), "hoy", true)
    ensures Aviso(ParaManana, b) == Construir(TituloManana, CuerpoManana(b), "mañana", false)
    ensures Aviso(ParaPasadoManana, b)
            == Construir(TituloPasadoManana, CuerpoPasadoManana(b), "pasadoMañana", false)
  {
  }

  lemma Asociar4(s: seq<Notificacion>, x1: seq<Notificacion>, x2: seq<Notificacion>,
                 x3: seq<Notificacion>, x4: seq<Notificacion>)
    ensures s + x1 + x2 + x3 + x4 == s + (x1 + (x2 + (x3 + x4)))
  {
  }

  /** The answer of the platform's permission state and request. */
  datatype Permiso = Concedido | Denegado | PorDefecto

  class Gestor {
    var permisoConcedido: bool
    var enviadas: seq<Notificacion>
    /** The delays of the timers armed and not yet fired, oldest first. */
    var temporizadores: seq<int>
    var ultimaVerificacionManual: int

    constructor ()
      ensures !permisoConcedido && enviadas == [] && temporizadores == [] && ultimaVerificacionManual == 0
    {
      permisoConcedido := false;
      enviadas := [];
      temporizadores := [];
      ultimaVerificacionManual := 0;
    }

    /** `pedirPermisos`: no support keeps the flag; a permission already
        granted sets it; a denied one keeps it; otherwise the answer to the
        request decides, and a request that fails keeps the flag. */
    method PedirPermisos(soportado: bool, estado: Permiso, respuesta: Option<Permiso>)
      returns (concedido: bool)
      modifies this`permisoConcedido
      ensures concedido ==> permisoConcedido
      ensures !soportado || estado == Denegado || (estado == PorDefecto && respuesta.None?) ==>
        !concedido && permisoConcedido == old(permisoConcedido)
      ensures soportado && estado == Concedido ==> concedido && permisoConcedido
      ensures soportado && estado == PorDefecto && respuesta.Some? ==>
        concedido == permisoConcedido == (respuesta.value == Concedido)
    {
      if !soportado {
        return false;
      }
      if estado == Concedido {
        permisoConcedido := true;
        return true;
      }
      if estado == Denegado {
        return false;
      }
      if respuesta.None? {
        return false;
      }
      permisoConcedido := respuesta.value == Concedido;
      concedido := permisoConcedido;
    }

    /** `enviarNotificacion`: shows one notification when permission was
        granted, nothing otherwise. */
    method EnviarNotificacion(titulo: string, mensaje: string, tipo: string, requireInteraction: bool)
      modifies this`enviadas
      ensures enviadas == old(enviadas)
                          + (if permisoConcedido then [Construir(titulo, mensaje, tipo, requireInteraction)] else [])
    {
      if !permisoConcedido {
        return;
      }
      enviadas := enviadas + [Construir(titulo, mensaje, tipo, requireInteraction)];
    }

    /** `verificarYNotificar`. The clock readings it makes are its
        parameters: the date strings `f` and the hour `horaActual`. */
    method VerificarYNotificar(tareas: seq<Task>, f: Fechas, horaActual: int)
      modifies this`enviadas
      ensures enviadas == old(enviadas) + Pase(permisoConcedido, tareas, f, horaActual)
    {
      if !permisoConcedido {
        return;
      }
      var b := CategorizarTareas(tareas, f);
      assert b == BucketsDe(tareas, f);
      ghost var e0 := enviadas;
      if |b.pasadas| > 0 {
        EnviarNotificacion(TituloVencidas, CuerpoVencidas(b.pasadas), "vencidas", true);
      }
      ghost var e1 := enviadas;
      assert e1 == e0 + SiHay(Vencidas, b.pasadas, true);
      if |b.hoy| > 0 {
        EnviarNotificacion(TituloHoy, CuerpoHoy(b.hoy), "hoy", true);
      }
      ghost var e2 := enviadas;
      assert e2 == e1 + SiHay(ParaHoy, b.hoy, true);
      if |b.manana| > 0 {
        EnviarNotificacion(TituloManana, CuerpoManana(b.manana), "mañana", false);
        AvisoLiteral(b.manana);
      }
      ghost var e3 := enviadas;
      assert e3 == e2 + SiHay(ParaManana, b.manana, true);
      if |b.pasadoManana| > 0 && horaActual == 8 {
        EnviarNotificacion(TituloPasadoManana, CuerpoPasadoManana(b.pasadoManana), "pasadoMañana", false);
        AvisoLiteral(b.pasadoManana);
        assert enviadas == e3 + [Aviso(ParaPasadoManana, b.pasadoManana)];
      } else {
        assert enviadas == e3;
      }
      assert enviadas == e3 + SiHay(ParaPasadoManana, b.pasadoManana, horaActual == 8);
      Asociar4(e0, SiHay(Vencidas, b.pasadas, true), SiHay(ParaHoy, b.hoy, true),
               SiHay(ParaManana, b.manana, true), SiHay(ParaPasadoManana, b.pasadoManana, horaActual == 8));
    }

    /** `programarProximaVerificacion`: arms one more timer. */
    method ProgramarProximaVerificacion(msDelDia: int) returns (delay: int)
      requires 0 <= msDelDia < DiaMs
      modifies this`temporizadores
      ensures AlProximoHorario(msDelDia, delay)
      ensures temporizadores == old(temporizadores) + [delay]
    {
      delay := ProximoTimeout(msDelDia);
      temporizadores := temporizadores + [delay];
    }

    /** `programarVerificacionPeriodica` at start-up: one timer armed, and
        the last catch-up time read from storage (0 when absent). */
    method ProgramarVerificacionPeriodica(msDelDia: int, guardada: Option<int>)
      requires 0 <= msDelDia < DiaMs
      modifies this`temporizadores, this`ultimaVerificacionManual
      ensures |temporizadores| == |old(temporizadores)| + 1
      ensures temporizadores[..|temporizadores| - 1] == old(temporizadores)
      ensures AlProximoHorario(msDelDia, temporizadores[|temporizadores| - 1])
      ensures ultimaVerificacionManual == if guardada.Some? then guardada.value else 0
    {
      var _ := ProgramarProximaVerificacion(msDelDia);
      ultimaVerificacionManual := if guardada.Some? then guardada.value else 0;
    }

    /** The oldest timer fires: one pass runs on the clock readings `f`
        and `hora`, and exactly one new timer, armed from the reading
        `msDelDia` (milliseconds since local midnight), replaces the fired
        one. */
    method AlDispararTemporizador(tareas: seq<Task>, f: Fechas, hora: int, msDelDia: int)
      requires 0 <= msDelDia < DiaMs && temporizadores != []
      modifies this`enviadas, this`temporizadores
      ensures enviadas == old(enviadas) + Pase(permisoConcedido, tareas, f, hora)
      ensures |temporizadores| == |old(temporizadores)|
      ensures temporizadores[..|temporizadores| - 1] == old(temporizadores)[1..]
      ensures AlProximoHorario(msDelDia, temporizadores[|temporizadores| - 1])
    {
      temporizadores := temporizadores[1..];
      VerificarYNotificar(tareas, f, hora);
      var _ := ProgramarProximaVerificacion(msDelDia);
    }

    /** The throttled visibility listener: when the page becomes visible
        more than two hours after the last catch-up (`ahoraMs` is the epoch
        time), one pass runs on the clock readings `f` and `hora`, and the
        time is recorded. */
    method AlCambiarVisibilidad(oculta: bool, ahoraMs: int, tareas: seq<Task>, f: Fechas, hora: int)
      modifies this`enviadas, this`ultimaVerificacionManual
      ensures var corre := !oculta && DebeVerificar(ahoraMs, old(ultimaVerificacionManual));
        && enviadas == old(enviadas) + (if corre then Pase(permisoConcedido, tareas, f, hora) else [])
        && ultimaVerificacionManual == if corre then ahoraMs else old(ultimaVerificacionManual)
    {
      if !oculta {
        if ahoraMs - ultimaVerificacionManual > DosHorasMs {
          VerificarYNotificar(tareas, f, hora);
          ultimaVerificacionManual := ahoraMs;
        }
      }
    }
  }
}

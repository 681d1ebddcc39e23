/** Timing arithmetic of the notification manager: where the next wake-up
    falls among the fixed daily slots, the two-hour throttle of the
    visibility catch-up, and the staggering of the in-page alerts of
    `verificarTareasCercanas`. Times of day are milliseconds since local
    midnight. */
module Schedule {
  import opened Text
  import opened Calendar
  import opened Tasks
  import opened Classify

  const HoraMs: int := 60 * 60 * 1000
  const DiaMs: int := 24 * HoraMs

  /** The hours of the three daily checks, in order. */
  const Horarios: seq<int> := [8, 12, 17]

  /** Every instant a wake-up may target, measured from today's midnight:
      the three slots of today and 08:00 of the next day. */
  const Objetivos: seq<int> := [8 * HoraMs, 12 * HoraMs, 17 * HoraMs, DiaMs + 8 * HoraMs]

  /** `delay` is positive and reaches, from `ahora`, the earliest wake-up
      target still ahead. */
  predicate AlProximoHorario(ahora: int, delay: int)
  {
    0 < delay && ahora + delay in Objetivos
    && forall k :: 0 <= k < |Objetivos| && Objetivos[k] > ahora ==> ahora + delay <= Objetivos[k]
  }

  /** `programarProximaVerificacion`'s delay: the first slot of today that
      lies strictly after `ahora`, searched in order with an early exit,
      else 08:00 tomorrow. */
  method ProximoTimeout(ahora: int) returns (delay: int)
    requires 0 <= ahora < DiaMs
    ensures AlProximoHorario(ahora, delay)
  {
    assert forall k :: 0 <= k < |Horarios| ==> Objetivos[k] == Horarios[k] * HoraMs;
    var proximo: int := 0;
    var encontrado := false;
    var i := 0;
    while i < |Horarios|
      invariant 0 <= i <= |Horarios|
      invariant !encontrado
      invariant forall k :: 0 <= k < i ==> Objetivos[k] <= ahora
    {
      var tiempoHorario := Horarios[i] * HoraMs;
      if tiempoHorario > ahora {
        proximo := tiempoHorario - ahora;
        encontrado := true;
        assert ahora + proximo == Objetivos[i];
        break;
      }
      i := i + 1;
    }
    if !encontrado {
      proximo := DiaMs + 8 * HoraMs - ahora;
    }
    delay := proximo;
  }

  const DosHorasMs: int := 2 * HoraMs

  /** The visibility listener runs a catch-up pass only when more than two
      hours have passed since the recorded one. */
  predicate DebeVerificar(ahora: int, ultimaVerificacion: int)
  {
    ahora - ultimaVerificacion > DosHorasMs
  }

  /** The three kinds of in-page alert, in the order they are shown. */
  datatype Cercana = Pasadas | DeHoy | DeManana

  /** One scheduled alert: its kind, its delay and the tasks it lists. */
  datatype Alerta = Alerta(categoria: Cercana, retrasoMs: int, tareas: seq<Task>)

  /** `tareas.filter(t => t.fecha === fecha)`. */
  function FiltrarIgual(ts: seq<Task>, fecha: string): seq<Task>
  {
    Keep(ts, (t: Task) => t.fecha == fecha)
  }

  /** `tareas.filter(t => t.fecha < fecha)`. */
  function FiltrarAntes(ts: seq<Task>, fecha: string): seq<Task>
  {
    Keep(ts, (t: Task) => StrLess(t.fecha, fecha))
  }

  /** The list an alert kind shows. */
  function Lista(c: Cercana, ts: seq<Task>, f: Fechas): seq<Task>
  {
    match c
    case Pasadas => FiltrarAntes(ts, f.hoy)
    case DeHoy => FiltrarIgual(ts, f.hoy)
    case DeManana => FiltrarIgual(ts, f.manana)
  }

  /** The kinds whose list is not empty, in display order. */
  function Presentes(ts: seq<Task>, f: Fechas): seq<Cercana>
  {
    (if Lista(Pasadas, ts, f) != [] then [Pasadas] else [])
    + (if Lista(DeHoy, ts, f) != [] then [DeHoy] else [])
    + (if Lista(DeManana, ts, f) != [] then [DeManana] else [])
  }

  function Rango(c: Cercana): int
  {
    match c
    case Pasadas => 0
    case DeHoy => 1
    case DeManana => 2
  }

  /** `verificarTareasCercanas`: an alert for each non-empty list, overdue
      first, then today, then tomorrow; the first waits 500 ms and each
      later one 3000 ms more than the one before it. */
  method VerificarTareasCercanas(tareas: seq<Task>, f: Fechas) returns (alertas: seq<Alerta>)
    ensures |alertas| == |Presentes(tareas, f)| <= 3
    ensures forall k :: 0 <= k < |alertas| ==>
      alertas[k].categoria == Presentes(tareas, f)[k]
      && alertas[k].retrasoMs == 500 + 3000 * k
      && alertas[k].tareas == Lista(alertas[k].categoria, tareas, f) != []
    ensures forall j, k :: 0 <= j < k < |alertas| ==> Rango(alertas[j].categoria) < Rango(alertas[k].categoria)
  {
    var tareasHoy := FiltrarIgual(tareas, f.hoy);
    var tareasManana := FiltrarIgual(tareas, f.manana);
    var tareasPasadas := FiltrarAntes(tareas, f.hoy);
    ghost var presentes := Presentes(tareas, f);
    assert Lista(Pasadas, tareas, f) == tareasPasadas && Lista(DeHoy, tareas, f) == tareasHoy
      && Lista(DeManana, tareas, f) == tareasManana;
    var delay := 500;
    alertas := [];
    if |tareasPasadas| > 0 {
      alertas := alertas + [Alerta(Pasadas, delay, tareasPasadas)];
      delay := delay + 3000;
    }
    if |tareasHoy| > 0 {
      alertas := alertas + [Alerta(DeHoy, delay, tareasHoy)];
      delay := delay + 3000;
    }
    if |tareasManana| > 0 {
      alertas := alertas + [Alerta(DeManana, delay, tareasManana)];
    }
  }

  /** The alert lists agree with the notification buckets whenever the
      strings of tomorrow and the day after do not sort before today's
      (`FechasEnOrden` gives this for the strings of a real date whose
      day after tomorrow still has a four-digit year): today's list is the
      `Hoy` bucket, and the overdue list is the `Vencida` bucket. */
  lemma AlertasComoBuckets(ts: seq<Task>, f: Fechas)
    requires !StrLess(f.manana, f.hoy) && !StrLess(f.pasadoManana, f.hoy)
    ensures FiltrarIgual(ts, f.hoy) == Select(ts, Hoy, f)
    ensures FiltrarAntes(ts, f.hoy) == Select(ts, Vencida, f)
  {
    KeepAgree(ts, (t: Task) => t.fecha == f.hoy, (t: Task) => Classify.Classify(t.fecha, f) == Hoy);
    forall i | 0 <= i < |ts|
      ensures StrLess(ts[i].fecha, f.hoy) == (Classify.Classify(ts[i].fecha, f) == Vencida)
    {
      if StrLess(ts[i].fecha, f.hoy) {
        StrLessIrreflexive(f.hoy);
      }
    }
    KeepAgree(ts, (t: Task) => StrLess(t.fecha, f.hoy), (t: Task) => Classify.Classify(t.fecha, f) == Vencida);
  }

  /** Tomorrow's list is the `Manana` bucket whenever tomorrow's string is
      not today's. */
  lemma AlertaMananaComoBucket(ts: seq<Task>, f: Fechas)
    requires f.manana != f.hoy
    ensures FiltrarIgual(ts, f.manana) == Select(ts, Manana, f)
  {
    KeepAgree(ts, (t: Task) => t.fecha == f.manana, (t: Task) => Classify.Classify(t.fecha, f) == Manana);
  }

  /** The strings of today, tomorrow and the day after tomorrow sort in
      calendar order while the years keep four digits. At the turn of the
      year 9999 they do not (`FechasFueraDeOrden`). */
  lemma FechasEnOrden(hoy: Date)
    requires FourDigitYear(hoy) && FourDigitYear(NextDay(NextDay(hoy)))
    ensures var f := FechasDe(hoy);
      !StrLess(f.manana, f.hoy) && !StrLess(f.pasadoManana, f.hoy) && f.manana != f.hoy
  {
    var m := NextDay(hoy);
    var p := NextDay(m);
    FechasSiguientes(hoy);
    assert FourDigitYear(m);
    FormatOrder(m, hoy);
    FormatOrder(p, hoy);
  }

  /** The year-end counterexample: on 9999-12-31 tomorrow's string
      sorts before today's. */
  lemma FechasFueraDeOrden()
    ensures var f := FechasDe(Date(9999, 12, 31)); StrLess(f.manana, f.hoy)
  {
    var hoy := Date(9999, 12, 31);
    var m := Date(10000, 1, 1);
    assert AddDays(hoy, 1) == m by {
      assert NextDay(hoy) == m;
      assert AddDays(m, 0) == m;
    }
    CifrasIniciales();
    assert FormatParts(10000, 1, 1)[0] == '1';
    assert FormatParts(9999, 12, 31)[0] == '9';
  }

  lemma CifrasIniciales()
    ensures NatToString(10000)[0] == '1' && NatToString(9999)[0] == '9'
  {
    NatToStringFirst(10000); NatToStringFirst(1000); NatToStringFirst(100); NatToStringFirst(10);
    NatToStringFirst(9999); NatToStringFirst(999); NatToStringFirst(99);
    assert NatToString(1) == "1" && NatToString(9) == "9";
  }

  /** For the strings of a real date, each in-page alert list is the
      notification bucket of the same name. */
  lemma AlertasDeFecha(ts: seq<Task>, hoy: Date)
    requires FourDigitYear(hoy) && FourDigitYear(NextDay(NextDay(hoy)))
    ensures FiltrarIgual(ts, FechasDe(hoy).hoy) == Select(ts, Hoy, FechasDe(hoy))
    ensures FiltrarAntes(ts, FechasDe(hoy).hoy) == Select(ts, Vencida, FechasDe(hoy))
    ensures FiltrarIgual(ts, FechasDe(hoy).manana) == Select(ts, Manana, FechasDe(hoy))
  {
    FechasEnOrden(hoy);
    AlertasComoBuckets(ts, FechasDe(hoy));
    AlertaMananaComoBucket(ts, FechasDe(hoy));
  }
}

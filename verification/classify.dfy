/** The due-date rule of the page: a task's `fecha` is compared with the
    strings of today, tomorrow and the day after tomorrow by equality, and
    with today's by the string `<`. The rule is written twice in the
    source, once for a card's CSS class and once for the notification
    buckets; both copies are modelled and shown to agree. */
module Classify {
  import opened Text
  import opened Calendar
  import opened Tasks

  /** The three strings one pass compares against. */
  datatype Fechas = Fechas(hoy: string, manana: string, pasadoManana: string)

  function FechasDe(hoy: Date): Fechas
    requires Valid(hoy)
  {
    Fechas(FechaHoyString(hoy), FechaMananaString(hoy), FechaPasadoMananaString(hoy))
  }

  /** Where a task lands: the four buckets of `categorizarTareas`, and
      `Futura` for a task none of them takes. */
  datatype Bucket = Hoy | Manana | PasadoManana | Vencida | Futura

  /** The chain of tests of `categorizarTareas`, first match wins. */
  function Classify(fecha: string, f: Fechas): Bucket
  {
    if fecha == f.hoy then Hoy
    else if fecha == f.manana then Manana
    else if fecha == f.pasadoManana then PasadoManana
    else if StrLess(fecha, f.hoy) then Vencida
    else Futura
  }

  /** The chain of tests of `mostrarTareas` that picks a card's class. */
  function CardClass(fecha: string, f: Fechas): string
  {
    if fecha == f.hoy then "hoy"
    else if fecha == f.manana then "mañana"
    else if fecha == f.pasadoManana then "pasado-mañana"
    else if StrLess(fecha, f.hoy) then "vencida"
    else ""
  }

  function ClassName(b: Bucket): string
  {
    match b
    case Hoy => "hoy"
    case Manana => "mañana"
    case PasadoManana => "pasado-mañana"
    case Vencida => "vencida"
    case Futura => ""
  }

  /** The two copies of the rule agree: a card is styled after the bucket
      its task is notified in, and distinct buckets give distinct classes. */
  lemma CardClassAgrees(fecha: string, f: Fechas)
    ensures CardClass(fecha, f) == ClassName(Classify(fecha, f))
    ensures forall b :: ClassName(b) == CardClass(fecha, f) ==> b == Classify(fecha, f)
  {
  }

  /** `ts.filter(keep)`: the tasks of `ts` that `keep` accepts, in their
      order. */
  function Keep(ts: seq<Task>, keep: Task -> bool): (r: seq<Task>)
    ensures |r| <= |ts|
    ensures forall t :: t in r ==> t in ts && keep(t)
  {
    if ts == [] then []
    else Keep(ts[..|ts| - 1], keep) + (if keep(ts[|ts| - 1]) then [ts[|ts| - 1]] else [])
  }

  /** The tasks of `ts`, in their order, whose date falls in bucket `b`. */
  function Select(ts: seq<Task>, b: Bucket, f: Fechas): seq<Task>
  {
    Keep(ts, (t: Task) => Classify(t.fecha, f) == b)
  }

  /** Filtering a concatenation filters each part and concatenates: the
      order of the list is kept. */
  lemma {:induction false} KeepAppend(a: seq<Task>, c: seq<Task>, keep: Task -> bool)
    ensures Keep(a + c, keep) == Keep(a, keep) + Keep(c, keep)
    decreases |c|
  {
    if c == [] {
      assert a + c == a;
    } else {
      var c' := c[..|c| - 1];
      assert (a + c)[..|a + c| - 1] == a + c';
      assert (a + c)[|a + c| - 1] == c[|c| - 1];
      KeepAppend(a, c', keep);
    }
  }

  /** A filter keeps every accepted task as many times as the list holds
      it, and no other task: the result is exactly the accepted
      subsequence. */
  lemma {:induction false} KeepCount(ts: seq<Task>, keep: Task -> bool, t: Task)
    ensures multiset(Keep(ts, keep))[t] == if keep(t) then multiset(ts)[t] else 0
    decreases |ts|
  {
    if ts != [] {
      var init := ts[..|ts| - 1];
      assert ts == init + [ts[|ts| - 1]];
      KeepCount(init, keep, t);
    }
  }

  /** Two filters that agree on every task of the list give the same
      result. */
  lemma {:induction false} KeepAgree(ts: seq<Task>, k1: Task -> bool, k2: Task -> bool)
    requires forall i :: 0 <= i < |ts| ==> k1(ts[i]) == k2(ts[i])
    ensures Keep(ts, k1) == Keep(ts, k2)
    decreases |ts|
  {
    if ts != [] {
      KeepAgree(ts[..|ts| - 1], k1, k2);
    }
  }

  /** The buckets of one pass, named as in the source. */
  datatype Buckets = Buckets(hoy: seq<Task>, manana: seq<Task>, pasadoManana: seq<Task>, pasadas: seq<Task>)

  /** `categorizarTareas`: one pass over the list, pushing each task into
      the first bucket whose test it passes. */
  method CategorizarTareas(tareas: seq<Task>, f: Fechas) returns (r: Buckets)
    ensures r.hoy == Select(tareas, Hoy, f)
    ensures r.manana == Select(tareas, Manana, f)
    ensures r.pasadoManana == Select(tareas, PasadoManana, f)
    ensures r.pasadas == Select(tareas, Vencida, f)
  {
    var hoy, manana, pasadoManana, pasadas := [], [], [], [];
    for i := 0 to |tareas|
      invariant hoy == Select(tareas[..i], Hoy, f)
      invariant manana == Select(tareas[..i], Manana, f)
      invariant pasadoManana == Select(tareas[..i], PasadoManana, f)
      invariant pasadas == Select(tareas[..i], Vencida, f)
    {
      var tarea := tareas[i];
      assert tareas[..i + 1][..i] == tareas[..i];
      if tarea.fecha == f.hoy {
        hoy := hoy + [tarea];
      } else if tarea.fecha == f.manana {
        manana := manana + [tarea];
      } else if tarea.fecha == f.pasadoManana {
        pasadoManana := pasadoManana + [tarea];
      } else if StrLess(tarea.fecha, f.hoy) {
        pasadas := pasadas + [tarea];
      }
    }
    assert tareas[..|tareas|] == tareas;
    r := Buckets(hoy, manana, pasadoManana, pasadas);
  }

  /** Bucketing a concatenation buckets each part and concatenates: the
      order of the list is kept inside every bucket. */
  lemma SelectAppend(a: seq<Task>, c: seq<Task>, b: Bucket, f: Fechas)
    ensures Select(a + c, b, f) == Select(a, b, f) + Select(c, b, f)
  {
    KeepAppend(a, c, (t: Task) => Classify(t.fecha, f) == b);
  }

  /** Every task is in its own bucket as many times as it is in the list,
      and in no other bucket: the buckets are exactly the matching
      subsequences and are pairwise disjoint. */
  lemma SelectCount(ts: seq<Task>, b: Bucket, f: Fechas, t: Task)
    ensures multiset(Select(ts, b, f))[t] == if Classify(t.fecha, f) == b then multiset(ts)[t] else 0
  {
    KeepCount(ts, (u: Task) => Classify(u.fecha, f) == b, t);
  }

  /** The five buckets split the list: their sizes add up to its length. */
  lemma {:induction false} SelectPartition(ts: seq<Task>, f: Fechas)
    ensures |Select(ts, Hoy, f)| + |Select(ts, Manana, f)| + |Select(ts, PasadoManana, f)|
            + |Select(ts, Vencida, f)| + |Select(ts, Futura, f)| == |ts|
    decreases |ts|
  {
    if ts != [] {
      SelectPartition(ts[..|ts| - 1], f);
    }
  }

  /** With the strings of a real date, the buckets mean what their names
      say: today, the next day, the day after it, any earlier day, and
      any day after the day after tomorrow. */
  lemma ClassifyByDate(hoy: Date, e: Date)
    requires FourDigitYear(hoy) && FourDigitYear(e)
    ensures Classify(Format(e), FechasDe(hoy)) == Hoy <==> e == hoy
    ensures Classify(Format(e), FechasDe(hoy)) == Manana <==> e == NextDay(hoy)
    ensures Classify(Format(e), FechasDe(hoy)) == PasadoManana <==> e == NextDay(NextDay(hoy))
    ensures Classify(Format(e), FechasDe(hoy)) == Vencida <==> Before(e, hoy)
    ensures Classify(Format(e), FechasDe(hoy)) == Futura <==> Before(NextDay(NextDay(hoy)), e)
  {
    var m := NextDay(hoy);
    var p := NextDay(m);
    FechasSiguientes(hoy);
    FormatOrder(e, hoy);
    SameText(e, m);
    SameText(e, p);
    LaterThanDayAfter(hoy, e);
    ClassifyTests(Format(e), FechasDe(hoy), e == hoy, e == m, e == p, Before(e, hoy), Before(p, e));
  }

  /** The bucket follows the four tests it makes; `later` holds exactly
      when none of them does. */
  lemma ClassifyTests(fecha: string, f: Fechas, esHoy: bool, esManana: bool, esPasado: bool, antes: bool, later: bool)
    requires (fecha == f.hoy <==> esHoy) && (fecha == f.manana <==> esManana)
    requires (fecha == f.pasadoManana <==> esPasado) && (StrLess(fecha, f.hoy) <==> antes)
    requires later <==> !esHoy && !esManana && !esPasado && !antes
    requires esHoy ==> !esManana && !esPasado && !antes
    requires esManana ==> !esPasado && !antes
    requires esPasado ==> !antes
    ensures Classify(fecha, f) == Hoy <==> esHoy
    ensures Classify(fecha, f) == Manana <==> esManana
    ensures Classify(fecha, f) == PasadoManana <==> esPasado
    ensures Classify(fecha, f) == Vencida <==> antes
    ensures Classify(fecha, f) == Futura <==> later
  {
  }

  /** A day that is none of today, tomorrow and the day after, nor before
      today, comes after the day after tomorrow, and conversely. */
  lemma LaterThanDayAfter(hoy: Date, e: Date)
    requires Valid(hoy) && Valid(e)
    ensures var m := NextDay(hoy); var p := NextDay(m);
      Before(p, e) <==> e != hoy && e != m && e != p && !Before(e, hoy)
  {
    var m := NextDay(hoy);
    var p := NextDay(m);
    if e != hoy && e != m && e != p && !Before(e, hoy) {
      NextDayIsSuccessor(hoy, e);
      NextDayIsSuccessor(m, e);
    }
  }

  /** A four-digit-year date and any valid date have the same text exactly
      when they are the same date. */
  lemma SameText(e: Date, d: Date)
    requires FourDigitYear(e) && Valid(d)
    ensures Format(e) == Format(d) <==> e == d
  {
    if d.year >= 10000 {
      FormatLongYear(d);
      FormatFourDigit(e);
    } else if Format(e) == Format(d) {
      FormatInjective(e, d);
    }
  }
}

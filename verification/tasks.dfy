/** The page's task list: the global array `tareas` of `{titulo,
    descripcion, fecha}` records, addressed by position, and the three
    operations that change it. */
module Tasks {
  import opened Wrappers
  import opened Text

  /** One task. `fecha` is whatever text the date input or the edit prompt
      produced; nothing checks that it is a real date. */
  datatype Task = Task(titulo: string, descripcion: string, fecha: string)

  /** The position `splice(index, 1)` starts at: a negative index counts
      from the end, and the start is clamped to the list. */
  function SpliceStart(len: nat, index: int): (k: nat)
    ensures k <= len
    ensures 0 <= index < len ==> k == index
    ensures index >= len ==> k == len
    ensures index < 0 && len + index >= 0 ==> k == len + index
    ensures len + index < 0 ==> k == 0
  {
    if index < 0 then (if len + index < 0 then 0 else len + index)
    else if index > len then len
    else index
  }

  /** The list without its element at position `k` (unchanged when `k` is
      past the end): earlier elements stay, later ones move down by one. */
  function RemoveAt(s: seq<Task>, k: nat): (r: seq<Task>)
    ensures k < |s| ==> |r| == |s| - 1
    ensures k < |s| ==> forall i :: 0 <= i < k ==> r[i] == s[i]
    ensures k < |s| ==> forall i :: k <= i < |r| ==> r[i] == s[i + 1]
    ensures k >= |s| ==> r == s
  {
    if k < |s| then s[..k] + s[k + 1..] else s
  }

  /** Removing a position takes out exactly one occurrence of the task
      that stood there and nothing else. */
  lemma RemoveAtMultiset(s: seq<Task>, k: nat)
    requires k < |s|
    ensures multiset(RemoveAt(s, k)) == multiset(s) - multiset{s[k]}
  {
    assert s == s[..k] + [s[k]] + s[k + 1..];
    assert multiset(s) == multiset(s[..k]) + multiset{s[k]} + multiset(s[k + 1..]);
  }

  class TaskList {
    var tareas: seq<Task>

    /** Start-up load: the stored list when there is one that parses,
        otherwise the empty list. */
    constructor (guardadas: Option<seq<Task>>)
      ensures tareas == if guardadas.Some? then guardadas.value else []
    {
      tareas := if guardadas.Some? then guardadas.value else [];
    }

    /** `agregarTarea`: title and description are trimmed, the date is not;
        the task is appended only when all three are non-empty. */
    method AgregarTarea(titulo: Option<string>, descripcion: Option<string>, fecha: Option<string>)
      returns (agregada: bool)
      modifies this
      ensures agregada <==> FilledTrimmed(titulo) && FilledTrimmed(descripcion) && Truthy(fecha)
      ensures agregada ==>
        tareas == old(tareas) + [Task(Trim(titulo.value), Trim(descripcion.value), fecha.value)]
      ensures !agregada ==> tareas == old(tareas)
    {
      agregada := FilledTrimmed(titulo) && FilledTrimmed(descripcion) && Truthy(fecha);
      if agregada {
        tareas := tareas + [Task(Trim(titulo.value), Trim(descripcion.value), fecha.value)];
      }
    }

    /** `eliminarTarea`: when the user confirms, `splice(index, 1)`. */
    method EliminarTarea(index: int, confirmado: bool)
      modifies this
      ensures confirmado ==> tareas == RemoveAt(old(tareas), SpliceStart(|old(tareas)|, index))
      ensures !confirmado ==> tareas == old(tareas)
    {
      if confirmado {
        tareas := RemoveAt(tareas, SpliceStart(|tareas|, index));
      }
    }

    /** `editarTarea`: nothing happens for a position holding no task or
        when any of the three prompt answers is cancelled or empty;
        otherwise that one position is overwritten with the answers, which
        are not trimmed. */
    method EditarTarea(index: int, nuevoTitulo: Option<string>, nuevaDescripcion: Option<string>,
                       nuevaFecha: Option<string>)
      returns (editada: bool)
      modifies this
      ensures editada <==> 0 <= index < |old(tareas)|
                           && Truthy(nuevoTitulo) && Truthy(nuevaDescripcion) && Truthy(nuevaFecha)
      ensures editada ==> |tareas| == |old(tareas)|
                          && tareas[index] == Task(nuevoTitulo.value, nuevaDescripcion.value, nuevaFecha.value)
                          && forall i :: 0 <= i < |tareas| && i != index ==> tareas[i] == old(tareas)[i]
      ensures !editada ==> tareas == old(tareas)
    {
      editada := false;
      if !(0 <= index < |tareas|) {
        return;
      }
      if Truthy(nuevoTitulo) && Truthy(nuevaDescripcion) && Truthy(nuevaFecha) {
        tareas := tareas[index := Task(nuevoTitulo.value, nuevaDescripcion.value, nuevaFecha.value)];
        editada := true;
      }
    }
  }
}

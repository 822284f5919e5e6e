/**
 * NotesViewModel.kt: the list of note entities last emitted by the
 * `getAllNotes()` query, the `notes` projection of it, and the guarded
 * insert and the delete the view model launches on the DAO.
 */
module Notes {
  import opened Chars
  import opened Dao

  /** NoteEntity.kt: `id` defaults to 0, which asks Room to generate one. */
  datatype NoteEntity = NoteEntity(id: int, noteText: string, date: string, time: string)

  /** `_noteEntities.value.map { it.noteText }`. */
  function NoteTexts(entities: seq<NoteEntity>): (r: seq<string>)
    ensures |r| == |entities|
    ensures forall i :: 0 <= i < |entities| ==> r[i] == entities[i].noteText
  {
    if entities == [] then [] else [entities[0].noteText] + NoteTexts(entities[1..])
  }

  /** Every insert carries the default id and three non-blank strings. */
  ghost predicate InsertsWellFormed(requests: seq<Request<NoteEntity>>) {
    forall i :: 0 <= i < |requests| && requests[i].Insert? ==>
      var e := requests[i].entity;
      e.id == 0 && !IsBlank(e.noteText) && !IsBlank(e.date) && !IsBlank(e.time)
  }

  class NotesViewModel {
    var noteEntities: seq<NoteEntity>
    /** The requests launched on NoteDao, in order. */
    var requests: seq<Request<NoteEntity>>

    ghost predicate Valid()
      reads this
    {
      InsertsWellFormed(requests)
    }

    constructor ()
      ensures Valid()
      ensures noteEntities == [] && requests == []
    {
      noteEntities, requests := [], [];
    }

    /** The `notes` getter: one text per entity held, in the same order. */
    function Notes(): (r: seq<string>)
      reads this
      ensures |r| == |noteEntities|
      ensures forall i :: 0 <= i < |r| ==> r[i] == noteEntities[i].noteText
    {
      NoteTexts(noteEntities)
    }

    /** One emission of the collected query: the list is replaced wholesale. */
    method OnNotesEmitted(entities: seq<NoteEntity>)
      requires Valid()
      modifies this`noteEntities
      ensures Valid()
      ensures noteEntities == entities && requests == old(requests)
    {
      noteEntities := entities;
    }

    /**
     * Launches one insert of the three strings as given, with the default
     * id, when none of them is blank; otherwise launches nothing.
     */
    method AddNote(noteText: string, date: string, time: string)
      requires Valid()
      modifies this`requests
      ensures Valid()
      ensures noteEntities == old(noteEntities)
      ensures !IsBlank(noteText) && !IsBlank(date) && !IsBlank(time) ==>
                requests == old(requests) + [Insert(NoteEntity(0, noteText, date, time))]
      ensures IsBlank(noteText) || IsBlank(date) || IsBlank(time) ==> requests == old(requests)
    {
      if !IsBlank(noteText) && !IsBlank(date) && !IsBlank(time) {
        requests := requests + [Insert(NoteEntity(0, noteText, date, time))];
      }
    }

    /** Launches one delete of exactly the entity given. */
    method DeleteNote(note: NoteEntity)
      requires Valid()
      modifies this`requests
      ensures Valid()
      ensures noteEntities == old(noteEntities)
      ensures requests == old(requests) + [Delete(note)]
    {
      requests := requests + [Delete(note)];
    }
  }
}

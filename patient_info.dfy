/**
 * PatientInfoViewModel.kt: the `PatientInfo` list projected from each
 * emission of `getAllPatientInfo()`, and the guarded insert and the delete
 * the view model launches on the DAO.
 */
module PatientInfo {
  import opened Chars
  import opened Dao

  /** PatientInfoEntity.kt: `id` defaults to 0, which asks Room to generate one. */
  datatype PatientInfoEntity = PatientInfoEntity(id: int, weight: string, height: string)

  /** The `PatientInfo` data class the screen shows. */
  datatype PatientInfo = PatientInfo(id: int, weight: string, height: string)

  /** `PatientInfo(it.id, it.weight, it.height)`. */
  function FromEntity(e: PatientInfoEntity): PatientInfo {
    PatientInfo(e.id, e.weight, e.height)
  }

  /** `PatientInfoEntity(id = p.id, weight = p.weight, height = p.height)`, built by `deletePatientInfo`. */
  function ToEntity(p: PatientInfo): PatientInfoEntity {
    PatientInfoEntity(p.id, p.weight, p.height)
  }

  /** `entities.map { PatientInfo(it.id, it.weight, it.height) }`. */
  function FromEntities(entities: seq<PatientInfoEntity>): (r: seq<PatientInfo>)
    ensures |r| == |entities|
    ensures forall i :: 0 <= i < |entities| ==>
      r[i].id == entities[i].id && r[i].weight == entities[i].weight && r[i].height == entities[i].height
  {
    if entities == [] then [] else [FromEntity(entities[0])] + FromEntities(entities[1..])
  }

  /** Deleting a shown row hands Room an entity equal to the one that was emitted. */
  lemma DeleteOfProjectedRow(entities: seq<PatientInfoEntity>, i: int)
    requires 0 <= i < |entities|
    ensures ToEntity(FromEntities(entities)[i]) == entities[i]
  {
  }

  /** The two conversions are inverse to each other. */
  lemma ConversionsInverse(e: PatientInfoEntity, p: PatientInfo)
    ensures ToEntity(FromEntity(e)) == e
    ensures FromEntity(ToEntity(p)) == p
  {
  }

  /** Every insert carries the default id and a non-blank weight and height. */
  ghost predicate InsertsWellFormed(requests: seq<Request<PatientInfoEntity>>) {
    forall i :: 0 <= i < |requests| && requests[i].Insert? ==>
      var e := requests[i].entity;
      e.id == 0 && !IsBlank(e.weight) && !IsBlank(e.height)
  }

  class PatientInfoViewModel {
    var patientInfoList: seq<PatientInfo>
    /** The requests launched on PatientInfoDao, in order. */
    var requests: seq<Request<PatientInfoEntity>>

    ghost predicate Valid()
      reads this
    {
      InsertsWellFormed(requests)
    }

    constructor ()
      ensures Valid()
      ensures patientInfoList == [] && requests == []
    {
      patientInfoList, requests := [], [];
    }

    /** One emission of the collected query: the list is replaced by its projection. */
    method OnPatientInfoEmitted(entities: seq<PatientInfoEntity>)
      requires Valid()
      modifies this`patientInfoList
      ensures Valid()
      ensures patientInfoList == FromEntities(entities) && requests == old(requests)
    {
      patientInfoList := FromEntities(entities);
    }

    /**
     * Launches one insert of the two strings as given (no numeric check),
     * with the default id, when neither is blank; otherwise nothing.
     */
    method AddPatientInfo(weight: string, height: string)
      requires Valid()
      modifies this`requests
      ensures Valid()
      ensures patientInfoList == old(patientInfoList)
      ensures !IsBlank(weight) && !IsBlank(height) ==>
                requests == old(requests) + [Insert(PatientInfoEntity(0, weight, height))]
      ensures IsBlank(weight) || IsBlank(height) ==> requests == old(requests)
    {
      if !IsBlank(weight) && !IsBlank(height) {
        requests := requests + [Insert(PatientInfoEntity(0, weight, height))];
      }
    }

    /** Launches one delete of the entity with the same id, weight and height. */
    method DeletePatientInfo(patientInfo: PatientInfo)
      requires Valid()
      modifies this`requests
      ensures Valid()
      ensures patientInfoList == old(patientInfoList)
      ensures requests == old(requests) + [Delete(ToEntity(patientInfo))]
      ensures requests[|requests| - 1].entity.id == patientInfo.id
      ensures requests[|requests| - 1].entity.weight == patientInfo.weight
      ensures requests[|requests| - 1].entity.height == patientInfo.height
    {
      requests := requests + [Delete(ToEntity(patientInfo))];
    }
  }
}

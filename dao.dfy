/**
 * NoteDao.kt and PatientInfoDao.kt, seen from the view models: each `insert`
 * or `delete` the view model launches is one request, kept in launch order.
 * What Room then does with a request (id generation, matching on delete,
 * re-emitting the query) is not part of this model.
 */
module Dao {
  datatype Request<E> = Insert(entity: E) | Delete(entity: E)
}

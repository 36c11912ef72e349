/** Values shared by every part of the pollable-relation model: the
    failure-carrying wrappers, the errors the Python code raises, model
    classes, saved and unsaved instances, and the content-type service. */
module Common {

  datatype Option<+T> = None | Some(value: T)

  datatype Result<+R> = Success(value: R) | Failure(error: Error)

  datatype Outcome = Pass | Fail(error: Error)

  /** The exceptions the modelled code raises (or lets the ORM raise). */
  datatype Error =
    | TypeError                // a mutating call on a manager with no instance
    | ValueError               // the relation read on an unsaved instance
    | MultipleObjectsReturned  // get_or_create found more than one record
    | IndexError               // instances[0] of an empty list
    | FieldDoesNotExist        // a class without a `poll` field asked for its poll model
    | MixedModels              // a bulk lookup over instances of more than one model

  /** A model class, identified by its name. */
  type Model = string

  /** A model instance: its class and its primary key, None while unsaved. */
  datatype Instance = Instance(model: Model, pk: Option<int>)

  /** Python truthiness of a primary key: None and 0 are both false. */
  predicate PkTruthy(pk: Option<int>)
  {
    pk.Some? && pk.value != 0
  }

  /** The content-type service maps each model to the id of its ContentType
      row; distinct models never share one. */
  ghost predicate Injective(ct: Model -> nat)
  {
    forall a: Model, b: Model :: ct(a) == ct(b) ==> a == b
  }
}

/**
 * The professional collection (models/ProfessionalModel.js): creation
 * behind a chain of required-field checks, and the `$set` update that
 * always stamps `updatedAt`.
 */
module Professionals {
  import opened Wrappers
  import opened Documents

  /** The guards of `create`, in source order. */
  function CreateChecks(pro: Doc): seq<Check>
  {
    [ Check(Present(pro, "name"), "Name is required"),
      Check(Present(pro, "specialization"), "Specialization is required"),
      Check(Present(pro, "education"), "Education is required"),
      Check(Present(pro, "imageUrl"), "Image URL is required"),
      Check(Present(pro, "description"), "Description is required"),
      Check(Present(pro, "price"), "Price is required") ]
  }

  /** Every field that `create` requires is present and truthy. */
  predicate Complete(pro: Doc)
  {
    && Present(pro, "name") && Present(pro, "specialization") && Present(pro, "education")
    && Present(pro, "imageUrl") && Present(pro, "description") && Present(pro, "price")
  }

  /** The new collection, and the caller's object after `create` changed it. */
  datatype Created = Created(professionals: Store, professional: Doc)

  /**
   * `ProfessionalModel.create`: the guards in order, then `createdAt` and
   * `updatedAt` set from two clock readings and the object inserted under
   * a fresh id (which the driver writes back into it as `_id`).
   */
  function Create(pro: Doc, professionals: Store, createdAt: Timestamp, updatedAt: Timestamp,
                  newId: ObjectId): (r: Result<Created, Fault>)
    requires "_id" !in pro && newId !in professionals
    ensures r.Err? <==> !Complete(pro)
    ensures r.Err? ==> r.error.Thrown?
    ensures r.Ok? ==> r.value.professional
                      == pro["createdAt" := Stamp(createdAt)]["updatedAt" := Stamp(updatedAt)]["_id" := Ref(newId)]
    ensures r.Ok? ==> r.value.professionals.Keys == professionals.Keys + {newId}
                      && r.value.professionals[newId] == r.value.professional
                      && forall id :: id in professionals ==> r.value.professionals[id] == professionals[id]
  {
    if !Present(pro, "name") then Err(Thrown("Name is required"))
    else if !Present(pro, "specialization") then Err(Thrown("Specialization is required"))
    else if !Present(pro, "education") then Err(Thrown("Education is required"))
    else if !Present(pro, "imageUrl") then Err(Thrown("Image URL is required"))
    else if !Present(pro, "description") then Err(Thrown("Description is required"))
    else if !Present(pro, "price") then Err(Thrown("Price is required"))
    else
      var stored := pro["createdAt" := Stamp(createdAt)]["updatedAt" := Stamp(updatedAt)]["_id" := Ref(newId)];
      Ok(Created(professionals[newId := stored], stored))
  }

  /** The message `create` throws is that of the first failing guard in source order. */
  lemma CreateFollowsCheckOrder(pro: Doc, professionals: Store, createdAt: Timestamp, updatedAt: Timestamp,
                                newId: ObjectId)
    requires "_id" !in pro && newId !in professionals
    ensures match Create(pro, professionals, createdAt, updatedAt, newId)
            case Err(e) => FirstFailure(CreateChecks(pro)) == Some(e.message)
            case Ok(_) => FirstFailure(CreateChecks(pro)) == None
  {
    var cs := CreateChecks(pro);
    FirstFailureOfSix(cs[0], cs[1], cs[2], cs[3], cs[4], cs[5]);
    assert cs == [cs[0], cs[1], cs[2], cs[3], cs[4], cs[5]];
  }

  /** A price of 0 is falsy, so it is refused as missing. */
  lemma ZeroPriceRejected(pro: Doc, professionals: Store, createdAt: Timestamp, updatedAt: Timestamp,
                          newId: ObjectId)
    requires "_id" !in pro && newId !in professionals
    requires forall i :: 0 <= i < 5 ==> CreateChecks(pro)[i].ok
    requires "price" in pro && pro["price"] == Num(0.0)
    ensures Create(pro, professionals, createdAt, updatedAt, newId) == Err(Thrown("Price is required"))
  {
    var cs := CreateChecks(pro);
    assert cs[0].ok && cs[1].ok && cs[2].ok && cs[3].ok && cs[4].ok;
  }

  /** The collection after an update, and the updated document (`null` when no document matched). */
  datatype Updated = Updated(professionals: Store, after: Option<Doc>)

  /**
   * `ProfessionalModel.update`: the `_id` selects the document; every
   * other supplied field, and `updatedAt` from the clock, is `$set` on it.
   */
  function Update(data: Doc, professionals: Store, now: Timestamp): (r: Result<Updated, Fault>)
    ensures r.Err? <==> IdField(data).None?
    ensures r.Err? ==> r.error == BadObjectId
    ensures r.Ok? && IdField(data).value !in professionals ==> r.value == Updated(professionals, None)
    ensures r.Ok? && IdField(data).value in professionals ==>
              var id := IdField(data).value;
              r.value.professionals.Keys == professionals.Keys &&
              var before := professionals[id];
              var after := r.value.professionals[id];
              && (forall other :: other in professionals && other != id ==>
                    r.value.professionals[other] == professionals[other])
              && r.value.after == Some(after)
              && after.Keys == before.Keys + (data.Keys - {"_id"}) + {"updatedAt"}
              && after["updatedAt"] == Stamp(now)
              && (forall k :: k in data && k != "_id" && k != "updatedAt" ==> after[k] == data[k])
              && (forall k :: k in before && (k !in data || k == "_id") && k != "updatedAt" ==> after[k] == before[k])
  {
    match IdField(data)
    case None => Err(BadObjectId)
    case Some(id) =>
      var fields := WithoutId(data)["updatedAt" := Stamp(now)];
      if id in professionals then
        var after := SetFields(professionals[id], fields);
        Ok(Updated(professionals[id := after], Some(after)))
      else Ok(Updated(professionals, None))
  }
}

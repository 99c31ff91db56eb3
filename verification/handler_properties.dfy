/** Properties that relate the verbs of the user handler to one another and
    to the result-count convention. */
module HandlerProperties {
  import opened Values
  import opened Results
  import opened ResultCode
  import opened Handler

  /** Update and Patch follow one decision: for the same typed user,
      validation verdict and service reply they call the service in the same
      cases, log in the same cases and answer with the same status. They
      differ only in what they send and echo: the user, or the field map. */
  lemma UpdatePatchAgree(u: User, fields: FieldMap, invalid: User -> bool, reply: Result<int64>)
    ensures var up := Update(Ok(u), invalid, reply);
            var pa := Patch(Ok(PatchRequest(u, fields)), invalid, reply);
            && up.call.Some? == pa.call.Some?
            && up.logged == pa.logged
            && up.response.Delegated? == pa.response.Delegated?
            && (!up.response.Delegated? ==> up.response.status == pa.response.status)
            && (up.response.Json? && IsSuccess(up.response.status) ==>
                  up.response.body == UserBody(u) && pa.response.body == FieldsBody(fields))
  {
  }

  /** Update and Delete answer a count the same way except for a collision:
      a negative count is 409 for Update and 404 for Delete. */
  lemma UpdateDeleteDifferOnlyOnCollision(u: User, id: GoString, res: int64)
    ensures var up := Update(Ok(u), _ => false, Ok(res));
            var de := Delete(Ok(id), Ok(res));
            up.response.status == de.response.status <==> res >= 0
  {
  }

  /** Create folds an empty result into a conflict, where Update reports it
      as not found. */
  lemma CreateUpdateDifferOnNoMatch(u: User, res: int64)
    ensures var cr := Create(Ok(u), _ => false, Ok(res));
            var up := Update(Ok(u), _ => false, Ok(res));
            (cr.response.status == StatusConflict) != (up.response.status == StatusConflict) <==> res == 0
  {
  }

  /** Once the service returned a count, Create answers exactly 201 or 409,
      and both occur. */
  lemma CreateAnswersExactly(u: User)
    ensures forall res: int64 :: Create(Ok(u), _ => false, Ok(res)).response.status in {StatusCreated, StatusConflict}
    ensures exists res: int64 :: Create(Ok(u), _ => false, Ok(res)).response.status == StatusCreated
    ensures exists res: int64 :: Create(Ok(u), _ => false, Ok(res)).response.status == StatusConflict
  {
    assert Create(Ok(u), _ => false, Ok(1)).response.status == StatusCreated;
    assert Create(Ok(u), _ => false, Ok(0)).response.status == StatusConflict;
  }

  /** Once the service returned a count, Update answers exactly 200, 404 or
      409, and all three occur. */
  lemma UpdateAnswersExactly(u: User)
    ensures forall res: int64 :: Update(Ok(u), _ => false, Ok(res)).response.status in {StatusOK, StatusNotFound, StatusConflict}
    ensures exists res: int64 :: Update(Ok(u), _ => false, Ok(res)).response.status == StatusOK
    ensures exists res: int64 :: Update(Ok(u), _ => false, Ok(res)).response.status == StatusNotFound
    ensures exists res: int64 :: Update(Ok(u), _ => false, Ok(res)).response.status == StatusConflict
  {
    assert Update(Ok(u), _ => false, Ok(1)).response.status == StatusOK;
    assert Update(Ok(u), _ => false, Ok(0)).response.status == StatusNotFound;
    assert Update(Ok(u), _ => false, Ok(-1)).response.status == StatusConflict;
  }

  /** Once the service returned a count, Patch answers exactly 200, 404 or
      409, and all three occur. */
  lemma PatchAnswersExactly(p: PatchRequest)
    ensures forall res: int64 :: Patch(Ok(p), _ => false, Ok(res)).response.status in {StatusOK, StatusNotFound, StatusConflict}
    ensures exists res: int64 :: Patch(Ok(p), _ => false, Ok(res)).response.status == StatusOK
    ensures exists res: int64 :: Patch(Ok(p), _ => false, Ok(res)).response.status == StatusNotFound
    ensures exists res: int64 :: Patch(Ok(p), _ => false, Ok(res)).response.status == StatusConflict
  {
    assert Patch(Ok(p), _ => false, Ok(1)).response.status == StatusOK;
    assert Patch(Ok(p), _ => false, Ok(0)).response.status == StatusNotFound;
    assert Patch(Ok(p), _ => false, Ok(-1)).response.status == StatusConflict;
  }

  /** Once the service returned a count, Delete answers exactly 200 or 404,
      and both occur. */
  lemma DeleteAnswersExactly(id: GoString)
    ensures forall res: int64 :: Delete(Ok(id), Ok(res)).response.status in {StatusOK, StatusNotFound}
    ensures exists res: int64 :: Delete(Ok(id), Ok(res)).response.status == StatusOK
    ensures exists res: int64 :: Delete(Ok(id), Ok(res)).response.status == StatusNotFound
  {
    assert Delete(Ok(id), Ok(1)).response.status == StatusOK;
    assert Delete(Ok(id), Ok(-1)).response.status == StatusNotFound;
  }

  /** A service error is answered the same way by every verb that logs it:
      500 as plain text, whatever else the request carried. */
  lemma ServiceErrorIsInternal(e: Failure, u: User, p: PatchRequest, id: GoString, invalid: User -> bool, isFound: Option<User> -> int)
    requires !invalid(u) && !invalid(p.user)
    ensures InternalError(All(Err(e)).response) && All(Err(e)).logged
    ensures InternalError(Load(Ok(id), isFound, Err(e)).response) && Load(Ok(id), isFound, Err(e)).logged
    ensures InternalError(Create(Ok(u), invalid, Err(e)).response) && Create(Ok(u), invalid, Err(e)).logged
    ensures InternalError(Update(Ok(u), invalid, Err(e)).response) && Update(Ok(u), invalid, Err(e)).logged
    ensures InternalError(Patch(Ok(p), invalid, Err(e)).response) && Patch(Ok(p), invalid, Err(e)).logged
    ensures InternalError(Delete(Ok(id), Err(e)).response) && Delete(Ok(id), Err(e)).logged
  {
  }
}

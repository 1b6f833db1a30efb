/** The result codes the data access layer reports for its write and count operations. */
module DalConstants {
  import opened Wrappers

  datatype AddUserResult = AddUserOK | ErrorDuplicateEmail | ErrorDuplicateUsername
  {
    function Code(): (c: int)
      ensures c <= 0 && (c == 0 <==> this == AddUserOK)
    {
      match this
      case AddUserOK => 0
      case ErrorDuplicateEmail => -1
      case ErrorDuplicateUsername => -2
    }
  }

  datatype AddUserFavouriteResult = AddFavouriteOK | ErrorInexistentUser | ErrorInexistentVenue | ErrorDuplicate
  {
    function Code(): (c: int)
      ensures c <= 0 && (c == 0 <==> this == AddFavouriteOK)
    {
      match this
      case AddFavouriteOK => 0
      case ErrorInexistentUser => -1
      case ErrorInexistentVenue => -2
      case ErrorDuplicate => -3
    }
  }

  datatype RemoveUserFavouriteResult = RemoveFavouriteOK | ErrorInexistent
  {
    function Code(): (c: int)
      ensures c <= 0 && (c == 0 <==> this == RemoveFavouriteOK)
    {
      match this
      case RemoveFavouriteOK => 0
      case ErrorInexistent => -1
    }
  }

  /** The result a raw AddUser code stands for; None for a code the enum does not define. */
  function AddUserResultFromCode(c: int): (r: Option<AddUserResult>)
    ensures r.Some? ==> r.value.Code() == c
  {
    if c == 0 then Some(AddUserOK)
    else if c == -1 then Some(ErrorDuplicateEmail)
    else if c == -2 then Some(ErrorDuplicateUsername)
    else None
  }

  function AddUserFavouriteResultFromCode(c: int): (r: Option<AddUserFavouriteResult>)
    ensures r.Some? ==> r.value.Code() == c
  {
    if c == 0 then Some(AddFavouriteOK)
    else if c == -1 then Some(ErrorInexistentUser)
    else if c == -2 then Some(ErrorInexistentVenue)
    else if c == -3 then Some(ErrorDuplicate)
    else None
  }

  function RemoveUserFavouriteResultFromCode(c: int): (r: Option<RemoveUserFavouriteResult>)
    ensures r.Some? ==> r.value.Code() == c
  {
    if c == 0 then Some(RemoveFavouriteOK)
    else if c == -1 then Some(ErrorInexistent)
    else None
  }

  /** Within each enum the codes are distinct, so every code identifies one result. */
  lemma AddUserCodesDistinct(a: AddUserResult, b: AddUserResult)
    ensures a.Code() == b.Code() <==> a == b
    ensures AddUserResultFromCode(a.Code()) == Some(a)
  {
  }

  lemma AddUserFavouriteCodesDistinct(a: AddUserFavouriteResult, b: AddUserFavouriteResult)
    ensures a.Code() == b.Code() <==> a == b
    ensures AddUserFavouriteResultFromCode(a.Code()) == Some(a)
  {
  }

  lemma RemoveUserFavouriteCodesDistinct(a: RemoveUserFavouriteResult, b: RemoveUserFavouriteResult)
    ensures a.Code() == b.Code() <==> a == b
    ensures RemoveUserFavouriteResultFromCode(a.Code()) == Some(a)
  {
  }
}

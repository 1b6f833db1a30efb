/**
 * The data transfer objects that cross the layers: records read from the database (Dal*) and
 * records handed to API callers (Api*). A reference that may be null is an Option.
 */
module Dto {
  import opened Wrappers
  import opened Numeric

  /** A user row as the data access layer reads it, password hash and role name included. */
  datatype DalUser = DalUser(
    id: int32,
    username: string,
    name: string,
    surname: string,
    email: string,
    passwordHash: string,
    role: string,
    accountStatusId: byte)

  /** A user as the API shows it. */
  datatype ApiUser = ApiUser(id: int32, email: string, name: string, surname: string, username: string)

  /** A venue row; the coordinates are SQL decimals. */
  datatype DalVenue = DalVenue(
    id: int32,
    name: string,
    geoLat: real,
    geoLng: real,
    address: string,
    rating: byte,
    mainMediaPath: string)

  datatype ApiVenue = ApiVenue(
    id: int32,
    name: string,
    geoLat: real,
    geoLng: real,
    address: string,
    rating: byte,
    mainMediaPath: string)

  datatype DalUserAccountStatus = DalUserAccountStatus(id: byte, status: string)
  datatype ApiUserAccountStatus = ApiUserAccountStatus(id: byte, status: string)

  /** The id an insert or delete touched; null when it touched none. */
  datatype DalAffectedId = DalAffectedId(value: Option<int32>)
  datatype ApiAffectedId = ApiAffectedId(value: Option<int32>)

  /** A data access outcome: a message and a result code. */
  datatype DalResult = DalResult(message: string, code: int)

  /** A write outcome together with the id it touched. */
  datatype DalResultWithAffectedId = DalResultWithAffectedId(dalResult: DalResult, dalAffectedId: DalAffectedId)

  datatype DalAffectedRows = DalAffectedRows(count: int32)
  datatype ApiAffectedRows = ApiAffectedRows(count: int32)

  /** The outcome of an endpoint: an HTTP status code, a message and a list of errors. */
  datatype ApiStatus = ApiStatus(statusCode: int, message: Option<string>, errors: Option<seq<string>>)

  /** An issued token and the instant (in ticks, UTC) it stops being valid. */
  datatype ApiSecurityToken = ApiSecurityToken(token: string, expires: int)

  /** Every Api*Response: a status paired with a payload. */
  datatype ApiResponse<P> = ApiResponse(apiStatus: ApiStatus, payload: P)
}

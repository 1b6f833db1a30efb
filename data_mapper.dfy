/** Mappings between the data access layer's records and the API's records. */
module DataMapper {
  import opened Wrappers
  import opened Dto

  function MapToApiStatus(code: int, msg: Option<string>, errors: Option<seq<string>>): (r: ApiStatus)
    ensures r.statusCode == code && r.message == msg && r.errors == errors
  {
    ApiStatus(code, msg, errors)
  }

  function MapToApiAffectedId(o: DalAffectedId): (r: ApiAffectedId)
    ensures r.value == o.value
  {
    ApiAffectedId(o.value)
  }

  function MapToApiAffectedRows(o: DalAffectedRows): (r: ApiAffectedRows)
    ensures r.count == o.count
  {
    ApiAffectedRows(o.count)
  }

  /** A user leaves the data layer without its password hash, role or account status. */
  function MapToApiUser(o: DalUser): (r: ApiUser)
    ensures r.id == o.id && r.email == o.email && r.name == o.name
    ensures r.surname == o.surname && r.username == o.username
  {
    ApiUser(o.id, o.email, o.name, o.surname, o.username)
  }

  function MapToApiUserAccountStatus(o: DalUserAccountStatus): (r: ApiUserAccountStatus)
    ensures r.id == o.id && r.status == o.status
  {
    ApiUserAccountStatus(o.id, o.status)
  }

  function MapToApiVenue(o: DalVenue): (r: ApiVenue)
    ensures r.id == o.id && r.name == o.name && r.geoLat == o.geoLat && r.geoLng == o.geoLng
    ensures r.address == o.address && r.rating == o.rating && r.mainMediaPath == o.mainMediaPath
  {
    ApiVenue(o.id, o.name, o.geoLat, o.geoLng, o.address, o.rating, o.mainMediaPath)
  }

  /** Every response composer: the status and the payload go in unaltered. */
  function MapToApiResponse<P>(apiStatus: ApiStatus, payload: P): (r: ApiResponse<P>)
    ensures r.apiStatus == apiStatus && r.payload == payload
  {
    ApiResponse(apiStatus, payload)
  }

  /** What reaches the API does not depend on the password hash, the role or the account status:
      two rows that agree on everything else map to the same API user. */
  lemma MapToApiUserFilters(a: DalUser, b: DalUser)
    requires a.id == b.id && a.email == b.email && a.name == b.name
    requires a.surname == b.surname && a.username == b.username
    ensures MapToApiUser(a) == MapToApiUser(b)
  {
  }

  /** Conversely, the API user tells apart any two rows that differ in a field it carries. */
  lemma MapToApiUserKeepsPublicFields(a: DalUser, b: DalUser)
    ensures MapToApiUser(a) == MapToApiUser(b) <==>
      (a.id == b.id && a.email == b.email && a.name == b.name && a.surname == b.surname && a.username == b.username)
  {
  }

  /** The venue mapping loses nothing: it is injective. */
  lemma MapToApiVenueInjective(a: DalVenue, b: DalVenue)
    ensures MapToApiVenue(a) == MapToApiVenue(b) <==> a == b
  {
  }
}

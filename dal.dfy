/**
 * The pure parts of the data access layer: its settings, the database-name guards, the
 * paging bounds, and the translation of what an insert or delete returned, or of the SQL
 * error it raised, into a result code. The database itself is not modelled.
 */
module Dal {
  import opened Wrappers
  import opened Numeric
  import opened Text
  import Int32Text
  import opened Dto
  import opened DalConstants

  /** Used when the settings give no MaxSelectRows. */
  const DefaultMaxSelectRows: int32 := 100
  const MaxSelectRowsUpperLimit: int32 := 5000
  const MaxSelectRowsLowerLimit: int32 := 1
  const MasterDatabase: string := "master"

  /** DalSettings as read from configuration. */
  datatype DalSettings = DalSettings(connectionString: Option<string>, maxSelectRows: Option<int32>)

  /** The exceptions the data access layer raises while setting up or guarding. */
  datatype DalError =
    | NullConnectionString             // Trim on a null reference
    | InvalidArgument(message: string) // ArgumentException and ArgumentOutOfRangeException

  /** IsWithinLimitForRowCount. */
  predicate IsWithinLimitForRowCount(value: int)
  {
    MaxSelectRowsLowerLimit <= value <= MaxSelectRowsUpperLimit
  }

  const ConnectionStringMissing: string := "Dal: Connection string is missing from settings."

  function MaxSelectRowsOutOfRange(msr: int32): string
  {
    "Dal: The value for MaxSelectRows in settings is " + Int32Text.FormatInt(msr)
    + " which is outside the allowed range of 1 and 5000."
  }

  /**
   * ParseSettings: the connection string is trimmed and must not be empty; a missing
   * MaxSelectRows becomes 100, and the value must lie in [1, 5000].
   */
  function ParseSettings(unparsed: DalSettings): (r: Result<DalSettings, DalError>)
    ensures r == Failure(NullConnectionString) <==> unparsed.connectionString.None?
    ensures r == Failure(InvalidArgument(ConnectionStringMissing)) <==>
      unparsed.connectionString.Some? && Trim(unparsed.connectionString.value) == []
    ensures r.Success? <==>
      && unparsed.connectionString.Some? && Trim(unparsed.connectionString.value) != []
      && IsWithinLimitForRowCount(unparsed.maxSelectRows.GetOr(DefaultMaxSelectRows))
    ensures r.Success? ==>
      && r.value.connectionString == Some(Trim(unparsed.connectionString.value))
      && r.value.maxSelectRows == Some(unparsed.maxSelectRows.GetOr(DefaultMaxSelectRows))
  {
    if unparsed.connectionString.None? then Failure(NullConnectionString)
    else
      var cs := Trim(unparsed.connectionString.value);
      if IsNullOrEmpty(Some(cs)) then Failure(InvalidArgument(ConnectionStringMissing))
      else
        var msr := unparsed.maxSelectRows.GetOr(DefaultMaxSelectRows);
        if !IsWithinLimitForRowCount(msr) then Failure(InvalidArgument(MaxSelectRowsOutOfRange(msr)))
        else Success(DalSettings(Some(cs), Some(msr)))
  }

  /** Parsed settings parse to themselves. */
  lemma ParseSettingsIdempotent(unparsed: DalSettings)
    requires ParseSettings(unparsed).Success?
    ensures ParseSettings(ParseSettings(unparsed).value) == ParseSettings(unparsed)
  {
    TrimNoOp(Trim(unparsed.connectionString.value));
  }

  /** A configured data access layer. */
  datatype Dal = Dal(connectionString: string, dbName: string, maxSelectRows: int32)

  /** What the constructor guarantees. */
  predicate Valid(dal: Dal)
  {
    && IsWithinLimitForRowCount(dal.maxSelectRows)
    && dal.connectionString != []
    && dal.dbName != []
    && !IsMasterDatabase(dal.dbName)
  }

  /** IsMasterDatabase: the name is "master", ignoring case. */
  predicate IsMasterDatabase(databaseName: string)
  {
    EqualsIgnoreCase(databaseName, MasterDatabase)
  }

  /** IsKebApiDatabase: the name is the configured database's, ignoring case. */
  predicate IsKebApiDatabase(dal: Dal, databaseName: string)
  {
    EqualsIgnoreCase(databaseName, dal.dbName)
  }

  const DatabaseNameMissing: string := "Dal: Database name is missing from the connection string."
  const DatabaseNameIsMaster: string := "Dal: Database name cannot be that of the master database."

  /**
   * The constructor: parses the settings, then takes the database name from the connection
   * string's Initial Catalog (given here as `initialCatalog`), trimmed, and refuses an empty
   * name and the master database.
   */
  function NewDal(settings: DalSettings, initialCatalog: string): (r: Result<Dal, DalError>)
    ensures ParseSettings(settings).Failure? ==> r == Failure(ParseSettings(settings).error)
    ensures ParseSettings(settings).Success? ==>
      && (r == Failure(InvalidArgument(DatabaseNameMissing)) <==> Trim(initialCatalog) == [])
      && (r == Failure(InvalidArgument(DatabaseNameIsMaster)) <==>
            Trim(initialCatalog) != [] && IsMasterDatabase(Trim(initialCatalog)))
    ensures r.Success? ==> Valid(r.value) && r.value.dbName == Trim(initialCatalog)
  {
    var parsed :- ParseSettings(settings);
    var dbName := Trim(initialCatalog);
    if IsNullOrEmpty(Some(dbName)) then Failure(InvalidArgument(DatabaseNameMissing))
    else if IsMasterDatabase(dbName) then Failure(InvalidArgument(DatabaseNameIsMaster))
    else Success(Dal(parsed.connectionString.value, dbName, parsed.maxSelectRows.value))
  }

  const OperationOnMaster: string := "Operation cannot be invoked on the master database."
  const OperationOnOtherDatabase: string := "Operation cannot be invoked on databases other than a KebApi database."

  /** The safeguard at the top of CreateDatabase, DropDatabase and ResetDatabase: None lets
      the operation proceed. */
  function GuardDatabaseOperation(dal: Dal, databaseName: string): (r: Option<DalError>)
    ensures r == Some(InvalidArgument(OperationOnMaster)) <==> IsMasterDatabase(databaseName)
    ensures r == Some(InvalidArgument(OperationOnOtherDatabase)) <==>
      !IsMasterDatabase(databaseName) && !IsKebApiDatabase(dal, databaseName)
  {
    if IsMasterDatabase(databaseName) then Some(InvalidArgument(OperationOnMaster))
    else if !IsKebApiDatabase(dal, databaseName) then Some(InvalidArgument(OperationOnOtherDatabase))
    else None
  }

  /** A configured layer creates, drops and resets its own database and no other. */
  lemma GuardAllowsOnlyOwnDatabase(dal: Dal, databaseName: string)
    requires Valid(dal)
    ensures GuardDatabaseOperation(dal, databaseName).None? <==> EqualsIgnoreCase(databaseName, dal.dbName)
  {
    EqualsIgnoreCaseEquivalence(dal.dbName, databaseName, MasterDatabase);
    EqualsIgnoreCaseEquivalence(databaseName, dal.dbName, MasterDatabase);
  }

  /** Dal.ParseStartRow: the magnitude of the start row; Math.Abs overflows on Int32.MinValue. */
  function ParseStartRow(startRow: int32): (r: Result<int32, Overflow>)
    ensures r.Failure? <==> startRow == Int32Min
    ensures r.Success? ==> r.value as int == if startRow < 0 then -(startRow as int) else startRow as int
  {
    Abs32(startRow)
  }

  /** Dal.ParseRowCount: the magnitude of the row count, or the configured maximum when that
      magnitude is zero or above it. */
  function ParseRowCount(dal: Dal, rowCount: int32): (r: Result<int32, Overflow>)
    ensures r.Failure? <==> rowCount == Int32Min
    ensures r.Success? ==>
      var rows := if rowCount < 0 then -(rowCount as int) else rowCount as int;
      r.value as int == if rows == 0 || rows > dal.maxSelectRows as int then dal.maxSelectRows as int else rows
  {
    var rows :- Abs32(rowCount);
    if rows == 0 || rows > dal.maxSelectRows then Success(dal.maxSelectRows) else Success(rows)
  }

  /** For a configured layer, every row count that does not overflow becomes one in
      [1, MaxSelectRows], and one already there is kept. */
  lemma RowCountInRange(dal: Dal, rowCount: int32)
    requires Valid(dal)
    requires rowCount != Int32Min
    ensures 1 <= ParseRowCount(dal, rowCount).value <= dal.maxSelectRows
    ensures 1 <= rowCount <= dal.maxSelectRows ==> ParseRowCount(dal, rowCount).value == rowCount
  {
  }

  /** MapToDalResult. */
  function MapToDalResult(message: string, code: int): (r: DalResult)
    ensures r.message == message && r.code == code
  {
    DalResult(message, code)
  }

  /** MapToDalAffectedId. */
  function MapToDalAffectedId(id: Option<int32>): (r: DalAffectedId)
    ensures r.value == id
  {
    DalAffectedId(id)
  }

  /** What ExecuteScalar returned: null, an int, or a value of another type. */
  datatype Scalar = Null | Int(value: int32) | OtherValue

  /** A SqlException: its error number and message. */
  datatype SqlError = SqlError(number: int, message: string)

  /** How the insert or delete ended: with a scalar, or by raising a SqlException. */
  datatype Execution = Returned(scalar: Scalar) | Raised(error: SqlError)

  const UniqueKeyViolation: int := 2627
  const ForeignKeyViolation: int := 547
  const UniqueUserEmail: string := "'uq_user_email'"
  const UniqueUserUsername: string := "'uq_user_username'"
  const UniqueUserVenue: string := "'uq_user_venue'"
  const FavouriteUserKey: string := "\"fk_user_favourite_venues_users_id\""
  const FavouriteVenueKey: string := "\"fk_user_favourite_venues_venues_id\""

  /**
   * AddUser's result: the new id on success. A unique-key violation naming the email
   * constraint (checked first) or the username constraint becomes the matching error with no
   * id; anything else, including a non-integer id, propagates (None).
   */
  function AddUserOutcome(execution: Execution): (r: Option<DalResultWithAffectedId>)
    ensures execution.Returned? ==>
      (r.Some? <==> execution.scalar.Int?) &&
      (r.Some? ==> r.value.dalResult.code == AddUserOK.Code()
                   && r.value.dalAffectedId.value == Some(execution.scalar.value))
    ensures execution.Raised? ==>
      var e := execution.error;
      && (r.Some? <==> e.number == UniqueKeyViolation
                       && (Contains(e.message, UniqueUserEmail) || Contains(e.message, UniqueUserUsername)))
      && (r.Some? ==> r.value.dalAffectedId.value.None?)
      && (r.Some? ==> (r.value.dalResult.code == ErrorDuplicateEmail.Code() <==> Contains(e.message, UniqueUserEmail)))
      && (r.Some? ==> r.value.dalResult.code in {ErrorDuplicateEmail.Code(), ErrorDuplicateUsername.Code()})
  {
    match execution
    case Returned(Int(id)) => Some(DalResultWithAffectedId(MapToDalResult("User added.", AddUserOK.Code()), MapToDalAffectedId(Some(id))))
    case Returned(_) => None
    case Raised(e) =>
      if e.number == UniqueKeyViolation then
        if Contains(e.message, UniqueUserEmail) then
          Some(DalResultWithAffectedId(
            MapToDalResult("A user already exists with that email.", ErrorDuplicateEmail.Code()),
            MapToDalAffectedId(None)))
        else if Contains(e.message, UniqueUserUsername) then
          Some(DalResultWithAffectedId(
            MapToDalResult("A user already exists with that username.", ErrorDuplicateUsername.Code()),
            MapToDalAffectedId(None)))
        else None
      else None
  }

  /**
   * AddUserFavourite's result: the new favourite's id on success; a foreign-key violation
   * naming the users key (checked first) or the venues key, or a unique-key violation naming
   * the user-venue constraint, becomes the matching error with no id; anything else propagates.
   */
  function AddUserFavouriteOutcome(execution: Execution): (r: Option<DalResultWithAffectedId>)
    ensures execution.Returned? ==>
      (r.Some? <==> execution.scalar.Int?) &&
      (r.Some? ==> r.value.dalResult.code == AddFavouriteOK.Code()
                   && r.value.dalAffectedId.value == Some(execution.scalar.value))
    ensures execution.Raised? ==>
      var e := execution.error;
      && (r.Some? <==>
            (e.number == ForeignKeyViolation && (Contains(e.message, FavouriteUserKey) || Contains(e.message, FavouriteVenueKey)))
            || (e.number == UniqueKeyViolation && Contains(e.message, UniqueUserVenue)))
      && (r.Some? ==> r.value.dalAffectedId.value.None?)
      && (r.Some? ==> (r.value.dalResult.code == ErrorInexistentUser.Code() <==>
                         e.number == ForeignKeyViolation && Contains(e.message, FavouriteUserKey)))
      && (r.Some? ==> (r.value.dalResult.code == ErrorDuplicate.Code() <==> e.number == UniqueKeyViolation))
  {
    match execution
    case Returned(Int(id)) =>
      Some(DalResultWithAffectedId(MapToDalResult("User favourite added.", AddFavouriteOK.Code()), MapToDalAffectedId(Some(id))))
    case Returned(_) => None
    case Raised(e) =>
      if e.number == ForeignKeyViolation then
        if Contains(e.message, FavouriteUserKey) then
          Some(DalResultWithAffectedId(
            MapToDalResult("Cannot add favourite. User does not exist.", ErrorInexistentUser.Code()),
            MapToDalAffectedId(None)))
        else if Contains(e.message, FavouriteVenueKey) then
          Some(DalResultWithAffectedId(
            MapToDalResult("Cannot add favourite. Venue does not exist.", ErrorInexistentVenue.Code()),
            MapToDalAffectedId(None)))
        else None
      else if e.number == UniqueKeyViolation then
        if Contains(e.message, UniqueUserVenue) then
          Some(DalResultWithAffectedId(
            MapToDalResult("Favourite already exists.", ErrorDuplicate.Code()),
            MapToDalAffectedId(None)))
        else None
      else None
  }

  /**
   * RemoveUserFavourite's result: a null id means there was nothing to remove (ErrorInexistent,
   * no id); an int id means it was removed (OK, that id). Any other value fails the cast.
   */
  function RemoveUserFavouriteOutcome(favId: Scalar): (r: Option<DalResultWithAffectedId>)
    ensures r.None? <==> favId.OtherValue?
    ensures r.Some? ==>
      && (r.value.dalResult.code == RemoveFavouriteOK.Code() <==> favId.Int?)
      && (r.value.dalResult.code == ErrorInexistent.Code() <==> favId.Null?)
      && r.value.dalAffectedId.value == (if favId.Int? then Some(favId.value) else None)
  {
    match favId
    case Null =>
      Some(DalResultWithAffectedId(
        MapToDalResult("No favourite to remove matching that user and venue.", ErrorInexistent.Code()),
        MapToDalAffectedId(None)))
    case Int(id) =>
      Some(DalResultWithAffectedId(MapToDalResult("User favourite removed.", RemoveFavouriteOK.Code()), MapToDalAffectedId(Some(id))))
    case OtherValue => None
  }

  /** A write reports success exactly when it carries an affected id. */
  lemma SuccessCarriesId(execution: Execution, favId: Scalar)
    ensures AddUserOutcome(execution).Some? ==>
      (AddUserOutcome(execution).value.dalResult.code == 0 <==> AddUserOutcome(execution).value.dalAffectedId.value.Some?)
    ensures AddUserFavouriteOutcome(execution).Some? ==>
      (AddUserFavouriteOutcome(execution).value.dalResult.code == 0
       <==> AddUserFavouriteOutcome(execution).value.dalAffectedId.value.Some?)
    ensures RemoveUserFavouriteOutcome(favId).Some? ==>
      (RemoveUserFavouriteOutcome(favId).value.dalResult.code == 0
       <==> RemoveUserFavouriteOutcome(favId).value.dalAffectedId.value.Some?)
  {
    AddUserCarriesId(execution);
    AddUserFavouriteCarriesId(execution);
  }

  lemma AddUserCarriesId(execution: Execution)
    ensures AddUserOutcome(execution).Some? ==>
      (AddUserOutcome(execution).value.dalResult.code == 0 <==> AddUserOutcome(execution).value.dalAffectedId.value.Some?)
  {
    var r := AddUserOutcome(execution);
    if r.Some? && execution.Raised? {
      assert r.value.dalResult.code in {ErrorDuplicateEmail.Code(), ErrorDuplicateUsername.Code()};
    }
  }

  lemma AddUserFavouriteCarriesId(execution: Execution)
    ensures AddUserFavouriteOutcome(execution).Some? ==>
      (AddUserFavouriteOutcome(execution).value.dalResult.code == 0
       <==> AddUserFavouriteOutcome(execution).value.dalAffectedId.value.Some?)
  {
    var r := AddUserFavouriteOutcome(execution);
    if r.Some? && execution.Raised? {
      assert r.value.dalResult.code in {ErrorInexistentUser.Code(), ErrorInexistentVenue.Code(), ErrorDuplicate.Code()};
    }
  }
}

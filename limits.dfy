/** The length and size limits read from the environment at start-up, and the
    else-if chain that rejects an inconsistent combination before the limits
    record is exported. Values are the already-parsed integers: the parsing of
    the environment strings is not part of this model. */
module Limits {

  datatype LimitsRecord = LimitsRecord(
    minUsernameLength: int,
    maxUsernameLength: int,
    minPasswordLength: int,
    maxPasswordLength: int,
    minDisplayNameLength: int,
    maxDisplayNameLength: int,
    maxFileSize: int)

  /** The values used when a variable is absent from the environment. */
  const Defaults := LimitsRecord(3, 36, 6, 36, 3, 50, 4)

  /** The fixed username length that must lie within the configured range. */
  const UsernameProbe := 12

  datatype LimitsError =
    | UsernameMinAboveMax
    | PasswordMinAboveMax
    | DisplayNameMinAboveMax
    | UsernameRangeExcludesProbe
    | FileSizeBelowOne

  datatype Checked = Accepted(limits: LimitsRecord) | Rejected(reason: LimitsError)

  function Message(e: LimitsError): string {
    match e
    case UsernameMinAboveMax => "Minimum username length cannot be greater than maximum username length"
    case PasswordMinAboveMax => "Minimum password length cannot be greater than maximum password length"
    case DisplayNameMinAboveMax => "Minimum display name length cannot be greater than maximum display name length"
    case UsernameRangeExcludesProbe => "Username length must be between 3 and 36 characters"
    case FileSizeBelowOne => "Maximum file size must be at least 1 MB"
  }

  /** The start-up check: the first failing test of the chain is reported;
      when none fails the record is exported with the values unchanged. */
  function CheckLimits(raw: LimitsRecord): (r: Checked)
    ensures r == Rejected(UsernameMinAboveMax) <==> raw.minUsernameLength > raw.maxUsernameLength
    ensures r == Rejected(PasswordMinAboveMax) <==>
      raw.minUsernameLength <= raw.maxUsernameLength && raw.minPasswordLength > raw.maxPasswordLength
    ensures r == Rejected(DisplayNameMinAboveMax) <==>
      raw.minUsernameLength <= raw.maxUsernameLength && raw.minPasswordLength <= raw.maxPasswordLength &&
      raw.minDisplayNameLength > raw.maxDisplayNameLength
    ensures r == Rejected(UsernameRangeExcludesProbe) <==>
      raw.minUsernameLength <= raw.maxUsernameLength && raw.minPasswordLength <= raw.maxPasswordLength &&
      raw.minDisplayNameLength <= raw.maxDisplayNameLength &&
      !(raw.minUsernameLength <= UsernameProbe <= raw.maxUsernameLength)
    ensures r == Rejected(FileSizeBelowOne) <==>
      raw.minUsernameLength <= raw.maxUsernameLength && raw.minPasswordLength <= raw.maxPasswordLength &&
      raw.minDisplayNameLength <= raw.maxDisplayNameLength &&
      raw.minUsernameLength <= UsernameProbe <= raw.maxUsernameLength && raw.maxFileSize < 1
    ensures r.Accepted? ==> r.limits == raw
  {
    if raw.minUsernameLength > raw.maxUsernameLength then Rejected(UsernameMinAboveMax)
    else if raw.minPasswordLength > raw.maxPasswordLength then Rejected(PasswordMinAboveMax)
    else if raw.minDisplayNameLength > raw.maxDisplayNameLength then Rejected(DisplayNameMinAboveMax)
    else if raw.minUsernameLength > UsernameProbe || raw.maxUsernameLength < UsernameProbe then Rejected(UsernameRangeExcludesProbe)
    else if raw.maxFileSize < 1 then Rejected(FileSizeBelowOne)
    else Accepted(raw)
  }

  /** What every accepted record guarantees to the code that reads it. */
  predicate Consistent(l: LimitsRecord) {
    && l.minUsernameLength <= UsernameProbe <= l.maxUsernameLength
    && l.minPasswordLength <= l.maxPasswordLength
    && l.minDisplayNameLength <= l.maxDisplayNameLength
    && l.maxFileSize >= 1
  }

  /** Acceptance is exactly consistency: no consistent record is rejected and
      no inconsistent one gets through. */
  lemma AcceptedIffConsistent(raw: LimitsRecord)
    ensures CheckLimits(raw).Accepted? <==> Consistent(raw)
  {
    match CheckLimits(raw)
    case Accepted(_) =>
    case Rejected(reason) =>
      match reason
      case UsernameMinAboveMax =>
      case PasswordMinAboveMax =>
      case DisplayNameMinAboveMax =>
      case UsernameRangeExcludesProbe =>
      case FileSizeBelowOne =>
  }

  /** With no variable set, start-up succeeds with the defaults. */
  lemma DefaultsAccepted()
    ensures CheckLimits(Defaults) == Accepted(LimitsRecord(3, 36, 6, 36, 3, 50, 4))
    ensures Consistent(Defaults)
  {
  }
}

/** Normalisation of a display name to the configured length bounds: too
    short becomes null, too long is cut to the maximum, anything else is kept. */
module DisplayName {
  import opened Outcomes

  /** JavaScript's `s.slice(0, end)`: a negative end counts from the back,
      an end beyond the string is clamped. */
  function SliceTo(s: string, end: int): (r: string)
    ensures r <= s
    ensures 0 <= end <= |s| ==> |r| == end
    ensures end > |s| ==> r == s
    ensures end < 0 ==> |r| == if |s| + end < 0 then 0 else |s| + end
  {
    if end >= 0 then (if end <= |s| then s[..end] else s)
    else if |s| + end < 0 then [] else s[..|s| + end]
  }

  function ParseDisplayName(name: string, minLength: int, maxLength: int): (r: Option<string>)
    ensures |name| < minLength ==> r == None
    ensures minLength <= |name| <= maxLength ==> r == Some(name)
    ensures |name| >= minLength && |name| > maxLength ==> r == Some(SliceTo(name, maxLength))
  {
    if |name| < minLength then None
    else if |name| > maxLength then Some(SliceTo(name, maxLength))
    else Some(name)
  }

  /** Under consistent bounds a kept name is a prefix of the input whose
      length lies within the bounds, and it is null only when too short. */
  lemma ParsedIsBoundedPrefix(name: string, minLength: int, maxLength: int)
    requires minLength <= maxLength && 0 <= maxLength
    ensures ParseDisplayName(name, minLength, maxLength).None? <==> |name| < minLength
    ensures ParseDisplayName(name, minLength, maxLength).Some? ==>
      var kept := ParseDisplayName(name, minLength, maxLength).value;
      kept <= name && minLength <= |kept| <= maxLength
  {
  }

  /** Parsing a parsed name again changes nothing. */
  lemma ParseIdempotent(name: string, minLength: int, maxLength: int)
    requires minLength <= maxLength && 0 <= maxLength
    requires ParseDisplayName(name, minLength, maxLength).Some?
    ensures var kept := ParseDisplayName(name, minLength, maxLength).value;
      ParseDisplayName(kept, minLength, maxLength) == Some(kept)
  {
    ParsedIsBoundedPrefix(name, minLength, maxLength);
  }
}

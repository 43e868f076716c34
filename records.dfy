/** The values the two core functions of the script work on: one performance
    record ("parse") of the statistics API, the failure-carrying result type
    that replaces Python's exceptions, and Python's `str.lower()`. */
module Records {

  /** A computation that either produces a value or fails with the exception
      the Python code would raise. */
  datatype Result<T, E> = Success(value: T) | Failure(error: E)

  /** One parse as the API returns it. Only the four fields the core reads are
      kept; `className` is the record's `class` field (a reserved word here).
      Percentiles are exact reals. */
  datatype Parse = Parse(encounterName: string, className: string, spec: string, percentile: real)

  /** Lower-casing of one character: the ASCII capitals 'A'..'Z' become
      'a'..'z', every other character is left unchanged. */
  function LowerChar(c: char): char
  {
    if 'A' <= c <= 'Z' then (c as int + 32) as char else c
  }

  predicate IsUpper(c: char)
  {
    'A' <= c <= 'Z'
  }

  /** `s.lower()`: the string with every character lower-cased in place. */
  function Lower(s: string): (r: string)
    ensures |r| == |s|
    ensures forall i :: 0 <= i < |s| ==> r[i] == LowerChar(s[i])
    ensures forall i :: 0 <= i < |r| ==> !IsUpper(r[i])
    ensures (forall i :: 0 <= i < |s| ==> !IsUpper(s[i])) ==> r == s
  {
    if s == [] then [] else [LowerChar(s[0])] + Lower(s[1..])
  }
}

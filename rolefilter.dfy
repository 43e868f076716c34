/** `get_role_parses`: keep, in order, the records whose (lower-cased) class
    and spec the role table maps to the requested role; stop with the
    table's `KeyError` at the first record it does not know.

    The filter is defined for any classification `roleOf` of records; the
    script's filter is the one for `RoleOf`, the lookup in `ClassesDict`.
    Keeping the classification a parameter keeps the table out of the
    proofs about the filter's shape. */
module RoleFilter {
  import opened Records
  import opened RoleTable

  /** The result of the filter loop after it has consumed `records`, written
      as a fold from the last record back: a failure in a prefix is final,
      and a record is appended only when its role equals `playerRole`. */
  function KeepRole(records: seq<Parse>, playerRole: string, roleOf: Parse -> Result<string, KeyError>)
    : (r: Result<seq<Parse>, KeyError>)
    ensures r.Success? ==> |r.value| <= |records|
    ensures r.Success? ==> forall j :: 0 <= j < |r.value| ==> roleOf(r.value[j]) == Success(playerRole)
  {
    if records == [] then Success([])
    else
      match KeepRole(records[..|records| - 1], playerRole, roleOf)
      case Failure(e) => Failure(e)
      case Success(kept) =>
        var last := records[|records| - 1];
        match roleOf(last)
        case Failure(e) => Failure(e)
        case Success(role) => Success(if role == playerRole then kept + [last] else kept)
  }

  /** The script's filter: classification by `classesDict`. */
  function RoleParses(records: seq<Parse>, playerRole: string): (r: Result<seq<Parse>, KeyError>)
    ensures r.Success? ==> |r.value| <= |records|
    ensures r.Success? ==> forall j :: 0 <= j < |r.value| ==> RoleOf(r.value[j]) == Success(playerRole)
    ensures r.Success? && r.value != [] ==> IsRole(playerRole)
  {
    var kept := KeepRole(records, playerRole, RoleOf);
    assert kept.Success? && kept.value != [] ==> RoleOf(kept.value[0]) == Success(playerRole);
    kept
  }

  /** The indices of the records whose role is `playerRole`, in increasing order. */
  function MatchingIndices(records: seq<Parse>, playerRole: string, roleOf: Parse -> Result<string, KeyError>)
    : (idx: seq<nat>)
    ensures forall j :: 0 <= j < |idx| ==> idx[j] < |records|
  {
    if records == [] then []
    else
      var n := |records| - 1;
      MatchingIndices(records[..n], playerRole, roleOf) + (if roleOf(records[n]) == Success(playerRole) then [n] else [])
  }

  /** The filter fails exactly when some record is unknown to the
      classification, and then it fails with the error of the FIRST such record. */
  lemma {:induction false} KeepRoleFailsAtFirstUnknown(records: seq<Parse>, playerRole: string, roleOf: Parse -> Result<string, KeyError>)
    ensures KeepRole(records, playerRole, roleOf).Success? <==> forall i :: 0 <= i < |records| ==> roleOf(records[i]).Success?
    ensures KeepRole(records, playerRole, roleOf).Failure? ==>
      exists i :: 0 <= i < |records| && roleOf(records[i]) == Failure(KeepRole(records, playerRole, roleOf).error)
                  && forall j :: 0 <= j < i ==> roleOf(records[j]).Success?
  {
    if records != [] {
      var n := |records| - 1;
      var front := records[..n];
      KeepRoleFailsAtFirstUnknown(front, playerRole, roleOf);
      assert forall i :: 0 <= i < n ==> records[i] == front[i];
      if KeepRole(front, playerRole, roleOf).Failure? {
        var i :| 0 <= i < |front| && roleOf(front[i]) == Failure(KeepRole(front, playerRole, roleOf).error)
                  && forall j :: 0 <= j < i ==> roleOf(front[j]).Success?;
        assert roleOf(records[i]) == Failure(KeepRole(records, playerRole, roleOf).error);
      } else if roleOf(records[n]).Failure? {
        assert roleOf(records[n]) == Failure(KeepRole(records, playerRole, roleOf).error);
      }
    }
  }

  /** A successful filter returns exactly the records whose role matches, in
      their input order and unmodified: the j-th output is the record at the
      j-th matching index, the indices strictly increase, and an input index is
      among them exactly when its record's role is `playerRole`. */
  lemma {:induction false} KeepRoleIsMatchingSubsequence(records: seq<Parse>, playerRole: string, roleOf: Parse -> Result<string, KeyError>)
    requires KeepRole(records, playerRole, roleOf).Success?
    ensures var kept, idx := KeepRole(records, playerRole, roleOf).value, MatchingIndices(records, playerRole, roleOf);
      && |kept| == |idx|
      && (forall j :: 0 <= j < |idx| ==> kept[j] == records[idx[j]])
      && (forall j, k :: 0 <= j < k < |idx| ==> idx[j] < idx[k])
      && (forall i :: 0 <= i < |records| ==> (i in idx <==> roleOf(records[i]) == Success(playerRole)))
  {
    if records != [] {
      var n := |records| - 1;
      var front := records[..n];
      KeepRoleIsMatchingSubsequence(front, playerRole, roleOf);
      assert forall i :: 0 <= i < n ==> records[i] == front[i];
    }
  }

  /** Once the records read so far make the filter fail, further records do
      not change the outcome. */
  lemma {:induction false} FailureIsFinal(records: seq<Parse>, playerRole: string, roleOf: Parse -> Result<string, KeyError>, k: nat)
    requires k <= |records|
    requires KeepRole(records[..k], playerRole, roleOf).Failure?
    ensures KeepRole(records, playerRole, roleOf) == KeepRole(records[..k], playerRole, roleOf)
    decreases |records| - k
  {
    if k < |records| {
      assert records[..k + 1][..k] == records[..k];
      FailureIsFinal(records, playerRole, roleOf, k + 1);
    } else {
      assert records[..k] == records;
    }
  }

  /** Every record the script's filter returns has a lower-cased class and
      spec that the table knows and maps to `playerRole`. */
  lemma RoleParsesKeepsOnlyPlayerRole(records: seq<Parse>, playerRole: string, j: nat)
    requires RoleParses(records, playerRole).Success?
    requires j < |RoleParses(records, playerRole).value|
    ensures var p := RoleParses(records, playerRole).value[j];
      && Lower(p.className) in ClassesDict
      && Lower(p.spec) in ClassesDict[Lower(p.className)]
      && ClassesDict[Lower(p.className)][Lower(p.spec)] == playerRole
  {
    var p := RoleParses(records, playerRole).value[j];
    assert RoleOf(p) == Success(playerRole);
  }

  /** A record whose lower-cased class is not in the table, or whose
      lower-cased spec is not listed under that class, makes the script's
      filter fail instead of returning a list. */
  lemma RoleParsesFailsOnUnknownPair(records: seq<Parse>, playerRole: string, i: nat)
    requires i < |records|
    requires Lower(records[i].className) !in ClassesDict
             || Lower(records[i].spec) !in ClassesDict[Lower(records[i].className)]
    ensures RoleParses(records, playerRole).Failure?
  {
    assert RoleOf(records[i]).Failure?;
    KeepRoleFailsAtFirstUnknown(records, playerRole, RoleOf);
  }

  /** `get_role_parses(character_json, player_role, metric)`. The loop of the
      source, appending to `parses`; `metric` is accepted and never read. */
  method GetRoleParses(characterJson: seq<Parse>, playerRole: string, metric: string)
    returns (r: Result<seq<Parse>, KeyError>)
    ensures r == RoleParses(characterJson, playerRole)
  {
    var parses: seq<Parse> := [];
    var i := 0;
    while i < |characterJson|
      invariant 0 <= i <= |characterJson|
      invariant RoleParses(characterJson[..i], playerRole) == Success(parses)
    {
      var parse := characterJson[i];
      var spec := Lower(parse.spec);
      var playerClass := Lower(parse.className);
      assert characterJson[..i + 1][..i] == characterJson[..i];
      if playerClass !in ClassesDict {
        FailureIsFinal(characterJson, playerRole, RoleOf, i + 1);
        return Failure(KeyError(playerClass));
      }
      if spec !in ClassesDict[playerClass] {
        FailureIsFinal(characterJson, playerRole, RoleOf, i + 1);
        return Failure(KeyError(spec));
      }
      var role := ClassesDict[playerClass][spec];
      if playerRole == role {
        parses := parses + [parse];
      }
      i := i + 1;
    }
    assert characterJson[..i] == characterJson;
    r := Success(parses);
  }
}

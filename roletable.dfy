/** The static table that maps a (class, specialization) pair to the role it
    plays, and the dictionary lookup the role filter performs on it. */
module RoleTable {
  import opened Records

  /** The exception Python raises when a dictionary has no entry for a key:
      `KeyError(key)`, carrying the key that was looked up. */
  datatype KeyError = KeyError(key: string)

  /** A role name as the table spells it. */
  predicate IsRole(role: string)
  {
    role == "tank" || role == "healer" || role == "dps"
  }

  /** `classesDict`, entry for entry, including "shadow" priests listed as
      healers. It is a constant: nothing in the model can change it. */
  const ClassesDict: map<string, map<string, string>> := map[
    "death knight" := map["blood" := "tank", "frost" := "dps", "unholy" := "dps"],
    "demon hunter" := map["havoc" := "dps", "vengeance" := "tank"],
    "druid" := map["balance" := "dps", "feral" := "dps", "guardian" := "tank", "restoration" := "healer"],
    "hunter" := map["beast mastery" := "dps", "marksmanship" := "dps", "survival" := "dps"],
    "mage" := map["arcane" := "dps", "fire" := "dps", "frost" := "dps"],
    "monk" := map["brewmaster" := "tank", "mistweaver" := "healer", "windwalker" := "dps"],
    "paladin" := map["holy" := "healer", "protection" := "tank", "retribution" := "dps"],
    "priest" := map["discipline" := "healer", "holy" := "healer", "shadow" := "healer"],
    "rogue" := map["assassination" := "dps", "outlaw" := "dps", "subtlety" := "dps"],
    "shaman" := map["elemental" := "dps", "enhancement" := "dps", "restoration" := "healer"],
    "warlock" := map["affliction" := "dps", "demonology" := "dps", "destruction" := "dps"],
    "warrior" := map["arms" := "dps", "fury" := "dps", "protection" := "tank"]
  ]

  /** `classesDict[className][spec]`: the outer lookup fails first, with the
      class as the missing key; otherwise the inner one may fail with the spec. */
  function LookupRole(className: string, spec: string): (r: Result<string, KeyError>)
    ensures r.Success? <==> className in ClassesDict && spec in ClassesDict[className]
    ensures r.Success? ==> IsRole(r.value)
    ensures className !in ClassesDict ==> r == Failure(KeyError(className))
    ensures className in ClassesDict && spec !in ClassesDict[className] ==> r == Failure(KeyError(spec))
  {
    TableRolesAreRoles();
    if className !in ClassesDict then Failure(KeyError(className))
    else if spec !in ClassesDict[className] then Failure(KeyError(spec))
    else Success(ClassesDict[className][spec])
  }

  /** The role of a record: its class and spec are lower-cased before the lookup. */
  function RoleOf(p: Parse): (r: Result<string, KeyError>)
    ensures r.Success? <==> Lower(p.className) in ClassesDict && Lower(p.spec) in ClassesDict[Lower(p.className)]
    ensures r.Success? ==> IsRole(r.value)
  {
    LookupRole(Lower(p.className), Lower(p.spec))
  }

  /** Every role in the table is "tank", "healer" or "dps". */
  lemma TableRolesAreRoles()
    ensures forall c, s :: c in ClassesDict && s in ClassesDict[c] ==> IsRole(ClassesDict[c][s])
  {
  }

  /** Lookup is case-insensitive in the record: a shadow priest, written with
      capitals as the API does, is classified as a healer. */
  lemma ShadowPriestIsHealer(p: Parse)
    requires p.className == "Priest" && p.spec == "Shadow"
    ensures RoleOf(p) == Success("healer")
  {
    assert Lower(p.className) == "priest" by {
      assert LowerChar('P') == 'p';
    }
    assert Lower(p.spec) == "shadow" by {
      assert LowerChar('S') == 's';
    }
  }
}

/**
 * The category resolver: a fixed, case-insensitive table from a budget category name
 * to the (department, purpose) pairs whose locally funded items belong to it.
 */
module BudgetCategory {
  import opened Base
  import opened Text

  /** One (department identifier, purpose identifier) pair. */
  datatype Target = Target(department: uint32, purpose: uint32)

  const Fire := Target(0x28F55A9F, 0xEA567BC3)
  const Police := Target(0xA2963983, 0x0A567BAA)
  const Jail := Target(0xA2963984, 0xEA56768A)
  const Power := Target(0x8910BC8A, 0xCA58E540)
  const EducationStaff := Target(0x09188F4C, 0xEA5654B6)
  const EducationCoverage := Target(0x4A538CC6, 0x4A5654BA)
  const HealthStaff := Target(0x09188F42, 0xCA565486)
  const HealthCoverage := Target(0xAA538CB3, 0xEA56549E)

  /** The table, checked in the source's order; an unrecognised name resolves to no pairs. */
  function Resolve(name: string): seq<Target>
  {
    if EqualsIgnoreCase(name, "Fire") then [Fire]
    else if EqualsIgnoreCase(name, "Police") then [Police]
    else if EqualsIgnoreCase(name, "Jail") then [Jail]
    else if EqualsIgnoreCase(name, "Power") then [Power]
    else if EqualsIgnoreCase(name, "Education") then [EducationStaff, EducationCoverage]
    else if EqualsIgnoreCase(name, "Health") then [HealthStaff, HealthCoverage]
    else []
  }

  /** `name` is one of the six category names, in any mixture of case. */
  predicate IsKnownCategory(name: string)
  {
    EqualsIgnoreCase(name, "Fire") || EqualsIgnoreCase(name, "Police") ||
    EqualsIgnoreCase(name, "Jail") || EqualsIgnoreCase(name, "Power") ||
    EqualsIgnoreCase(name, "Education") || EqualsIgnoreCase(name, "Health")
  }

  /**
   * `ParseBudgetCategoryName`: the output vector starts out cleared, gets the table's
   * pairs pushed in order, and the result says whether it ended up non-empty.
   */
  method ParseBudgetCategoryName(input: string) returns (found: bool, targets: seq<Target>)
    ensures targets == Resolve(input)
    ensures found <==> targets != []
    ensures found <==> IsKnownCategory(input)
  {
    targets := [];
    if EqualsIgnoreCase(input, "Fire") {
      targets := targets + [Fire];
    } else if EqualsIgnoreCase(input, "Police") {
      targets := targets + [Police];
    } else if EqualsIgnoreCase(input, "Jail") {
      targets := targets + [Jail];
    } else if EqualsIgnoreCase(input, "Power") {
      targets := targets + [Power];
    } else if EqualsIgnoreCase(input, "Education") {
      targets := targets + [EducationStaff];
      targets := targets + [EducationCoverage];
    } else if EqualsIgnoreCase(input, "Health") {
      targets := targets + [HealthStaff];
      targets := targets + [HealthCoverage];
    }
    found := |targets| != 0;
  }

  /**
   * The table row by row: each name, in any case, yields its fixed pairs (Staff before
   * Coverage for Education and Health), and any other name yields none.
   */
  lemma ResolveTable(name: string)
    ensures EqualsIgnoreCase(name, "Fire") ==> Resolve(name) == [Fire]
    ensures EqualsIgnoreCase(name, "Police") ==> Resolve(name) == [Police]
    ensures EqualsIgnoreCase(name, "Jail") ==> Resolve(name) == [Jail]
    ensures EqualsIgnoreCase(name, "Power") ==> Resolve(name) == [Power]
    ensures EqualsIgnoreCase(name, "Education") ==> Resolve(name) == [EducationStaff, EducationCoverage]
    ensures EqualsIgnoreCase(name, "Health") ==> Resolve(name) == [HealthStaff, HealthCoverage]
    ensures Resolve(name) != [] <==> IsKnownCategory(name)
  {
    if EqualsIgnoreCase(name, "Jail") {
      DifferentInitials(name, "Jail", "Fire");
    }
    if EqualsIgnoreCase(name, "Health") {
      DifferentInitials(name, "Health", "Police");
    }
  }

  /** Resolution looks only at the case-folded name. */
  lemma ResolveIgnoresCase(a: string, b: string)
    requires EqualsIgnoreCase(a, b)
    ensures Resolve(a) == Resolve(b)
  {
    var names := ["Fire", "Police", "Jail", "Power", "Education", "Health"];
    forall n | n in names
      ensures EqualsIgnoreCase(a, n) <==> EqualsIgnoreCase(b, n)
    {
      if EqualsIgnoreCase(a, n) {
        EqualsIgnoreCaseTransitive(b, a, n);
      }
      if EqualsIgnoreCase(b, n) {
        EqualsIgnoreCaseTransitive(a, b, n);
      }
    }
  }

  /** Every resolution has at most two pairs, and no department appears twice in it. */
  lemma ResolveShape(name: string)
    ensures |Resolve(name)| <= 2
    ensures forall i, j :: 0 <= i < j < |Resolve(name)| ==> Resolve(name)[i].department != Resolve(name)[j].department
  {
  }
}

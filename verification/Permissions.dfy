/**
 Permission codes and what a held code covers. A code is `<module>.<action>`; a module may have further dots
 inside its codes, and it is the first segment that names it.
 */
module Permissions {
  import opened Text
  import opened Wrappers

  const WILDCARD := "*"

  /** `permission.split('.')[0]`. */
  function ModuleOf(permission: string): string {
    match CutAt(permission, '.')
    case Whole => permission
    case Parts(first, _) => first
  }

  /** The check that the guard, the services and the user interface share: is `required` granted by what is held? */
  predicate Grants(held: Option<seq<string>>, required: string) {
    && held.Some? && held.value != []
    && (WILDCARD in held.value || required in held.value || ModuleOf(required) + ".*" in held.value)
  }

  /** What a single held code covers. */
  predicate Covers(code: string, required: string) {
    Grants(Some([code]), required)
  }

  /** Holding codes together grants what they grant one by one, and nothing more. */
  lemma GrantsCodeByCode(held: seq<string>, required: string)
    ensures Grants(Some(held), required) <==> exists code :: code in held && Covers(code, required)
  {
    if Grants(Some(held), required) {
      var code :| code in held && (code == WILDCARD || code == required || code == ModuleOf(required) + ".*");
      assert Covers(code, required);
    }
    if code :| code in held && Covers(code, required) {
      assert [code][0] == code;
    }
  }

  /** `required` belongs to module `m`: it is the bare module code, or a code under it. */
  predicate InModule(required: string, m: string) {
    '.' !in m && (required == m || m + "." <= required)
  }

  /**
   What is granted, read off the codes: everything by `*`, every code by itself, a module by its wildcard, and nothing
   else; and to someone who holds nothing, nothing.
   */
  lemma GrantsExactly(held: Option<seq<string>>, required: string)
    ensures Grants(held, required) <==>
              && held.Some?
              && (|| "*" in held.value || required in held.value
                  || exists m :: InModule(required, m) && m + ".*" in held.value)
  {
    var m := ModuleOf(required);
    ModuleHasNoDot(required);
    ModuleIsTheFirstSegment(m, required);
    forall n | InModule(required, n) ensures n == m {
      ModuleIsTheFirstSegment(n, required);
    }
  }

  lemma ModuleHasNoDot(permission: string)
    ensures '.' !in ModuleOf(permission)
  {
  }

  /** Neither order nor repetition of the held codes matters. */
  lemma OnlyTheSetMatters(held: seq<string>, other: seq<string>, required: string)
    requires forall code :: code in held <==> code in other
    ensures Grants(Some(held), required) <==> Grants(Some(other), required)
  {
    GrantsCodeByCode(held, required);
    GrantsCodeByCode(other, required);
  }

  /** The module is the first segment: the text up to the first dot, and all of it when there is none. */
  lemma ModuleIsTheFirstSegment(m: string, permission: string)
    requires '.' !in m
    ensures ModuleOf(permission) == m <==> permission == m || m + "." <= permission
  {
    NothingToCut(m, '.');
    if m + "." <= permission {
      var rest := permission[|m| + 1..];
      assert permission == m + ['.'] + rest;
      CutUndoesJoin(m, '.', rest);
    }
    if ModuleOf(permission) == m && permission != m {
      var cut := CutAt(permission, '.');
      assert permission[..|m| + 1] == m + ".";
    }
  }

  /**
   A module's wildcard grants its module: the bare module code and every code under it, however deep, and no code
   of any other module, not even one whose name starts the same way.
   */
  lemma ModuleWildcardIsExact(m: string, required: string)
    requires '.' !in m
    ensures Covers(m + ".*", required) <==> required == m || m + "." <= required
  {
    ModuleIsTheFirstSegment(m, required);
    ModuleIsTheFirstSegment(m, m + ".*");
    assert m + "." <= m + ".*";
    assert (m + ".*")[|m|] == '.' && WILDCARD[0] != '.';
    assert m + ".*" != WILDCARD;
    if ModuleOf(required) + ".*" == m + ".*" {
      SameStem(ModuleOf(required), m, ".*");
    }
    assert [m + ".*"][0] == m + ".*";
  }

  lemma SameStem(a: string, b: string, tail: string)
    requires a + tail == b + tail
    ensures a == b
  {
    assert |a| == |b|;
    assert (a + tail)[..|a|] == a && (b + tail)[..|b|] == b;
  }

  /** A wildcard on anything below a module is not one: it grants only the very code it is. */
  lemma NestedWildcardGrantsNothingElse(m: string, required: string)
    requires '.' in m
    ensures Covers(m + ".*", required) <==> required == m + ".*"
  {
    assert [m + ".*"][0] == m + ".*";
    assert |m + ".*"| > |WILDCARD|;
    if ModuleOf(required) + ".*" == m + ".*" {
      SameStem(ModuleOf(required), m, ".*");
      var cut := CutAt(required, '.');
      assert false;
    }
  }
}

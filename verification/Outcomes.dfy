/**
 Whether a type holds a task's state (scripts/generate_outcomes.py, `carries`): a search over types
 that may refer to one another in a circle, with a set of the models seen on the way down.
 */
module Outcomes {
  type ClassId = nat

  /** A type annotation: a class, the parameters of a `Callable`, or anything with type arguments. */
  datatype Annotation =
    | Class(id: ClassId)
    | Parameters(items: seq<Annotation>)
    | Generic(arguments: seq<Annotation>)

  /** A class: its name, the names of its ancestors, and its fields when it is a model. */
  datatype Declaration = Declaration(name: string, ancestors: seq<string>, model: bool, fields: seq<Annotation>)

  type Family = map<ClassId, Declaration>

  const STATE_MODEL := "TaskOut"

  predicate IsState(family: Family, annotation: Annotation) {
    annotation.Class? && annotation.id in family &&
    var declared := family[annotation.id];
    declared.name == STATE_MODEL || (declared.model && STATE_MODEL in declared.ancestors)
  }

  /** What an annotation is made of: the fields of a model, the arguments of anything else. */
  function Parts(family: Family, annotation: Annotation): seq<Annotation> {
    match annotation
    case Class(id) => if id in family && family[id].model then family[id].fields else []
    case Parameters(items) => items
    case Generic(arguments) => arguments
  }

  /** `carries`. */
  predicate Carries(family: Family, annotation: Annotation, seen: set<ClassId>)
    decreases family.Keys - seen, annotation, 1
  {
    match annotation
    case Parameters(items) => AnyCarries(family, items, seen)
    case Generic(arguments) => AnyCarries(family, arguments, seen)
    case Class(id) =>
      if id in seen then false
      else if IsState(family, annotation) then true
      else if id in family && family[id].model then
        assert id in family.Keys - seen && id !in family.Keys - (seen + {id});
        AnyCarries(family, family[id].fields, seen + {id})
      else false
  }

  predicate AnyCarries(family: Family, annotations: seq<Annotation>, seen: set<ClassId>)
    decreases family.Keys - seen, annotations, 0
  {
    annotations != [] &&
    (Carries(family, annotations[0], seen) || AnyCarries(family, annotations[1..], seen))
  }

  lemma {:induction false} AnyIsExists(family: Family, annotations: seq<Annotation>, seen: set<ClassId>)
    ensures AnyCarries(family, annotations, seen)
       <==> exists part :: part in annotations && Carries(family, part, seen)
    decreases annotations
  {
    if annotations != [] {
      AnyIsExists(family, annotations[1..], seen);
      assert annotations[0] in annotations;
      assert AnyCarries(family, annotations, seen)
          == (Carries(family, annotations[0], seen) || AnyCarries(family, annotations[1..], seen));
      forall part | part in annotations && Carries(family, part, seen)
        ensures AnyCarries(family, annotations, seen)
      {
        assert part == annotations[0] || part in annotations[1..];
      }
    }
  }

  // ------------------------------------------------------------------------------------------
  // Reachability, with no set of what was seen
  // ------------------------------------------------------------------------------------------

  /** Each annotation of the path is a part of the one before it. */
  ghost predicate IsPath(family: Family, path: seq<Annotation>) {
    path != [] && forall i :: 0 <= i < |path| - 1 ==> path[i + 1] in Parts(family, path[i])
  }

  /** A path leads from an annotation to the state model or to a subclass of it. */
  ghost predicate Leads(family: Family, annotation: Annotation, path: seq<Annotation>) {
    IsPath(family, path) && path[0] == annotation &&
    var last := path[|path| - 1];
    && last.Class? && last.id in family
    && (family[last.id].name == "TaskOut" || (family[last.id].model && "TaskOut" in family[last.id].ancestors))
  }

  ghost predicate Avoids(path: seq<Annotation>, seen: set<ClassId>) {
    forall i :: 0 <= i < |path| && path[i].Class? ==> path[i].id !in seen
  }

  /** What `carries` finds is there, on a path that avoids what was seen. */
  lemma {:induction false} Sound(family: Family, annotation: Annotation, seen: set<ClassId>)
    returns (path: seq<Annotation>)
    requires Carries(family, annotation, seen)
    ensures Leads(family, annotation, path) && Avoids(path, seen)
    decreases family.Keys - seen, annotation
  {
    if IsState(family, annotation) {
      path := [annotation];
    } else {
      var inner := if annotation.Class? then seen + {annotation.id} else seen;
      AnyIsExists(family, Parts(family, annotation), inner);
      var part :| part in Parts(family, annotation) && Carries(family, part, inner);
      if annotation.Class? {
        assert annotation.id in family.Keys - seen && annotation.id !in family.Keys - inner;
      }
      var rest := Sound(family, part, inner);
      path := [annotation] + rest;
      forall i | 0 <= i < |path| - 1
        ensures path[i + 1] in Parts(family, path[i])
      {
        if i > 0 {
          assert rest[i] in Parts(family, rest[i - 1]);
        }
      }
    }
  }

  /** The last place of an annotation on a path that starts with it. */
  ghost function LastPlace(path: seq<Annotation>, annotation: Annotation): (i: nat)
    requires path != [] && path[0] == annotation
    ensures i < |path| && path[i] == annotation
    ensures forall j :: i < j < |path| ==> path[j] != annotation
    decreases |path|
  {
    var last := |path| - 1;
    if path[last] == annotation then last else LastPlace(path[..last], annotation)
  }

  /** What is there `carries` finds. A path may come back to a model the search has seen; cut after
      its last visit, it does not, so the set of the models on the way down hides nothing. */
  lemma {:induction false} Complete(family: Family, annotation: Annotation, seen: set<ClassId>, path: seq<Annotation>)
    requires Leads(family, annotation, path) && Avoids(path, seen)
    ensures Carries(family, annotation, seen)
    decreases |path|
  {
    if !IsState(family, annotation) {
      var i := LastPlace(path, annotation);
      var rest, inner := path[i + 1..], if annotation.Class? then seen + {annotation.id} else seen;
      assert path[|path| - 1] != annotation;
      assert rest[0] == path[i + 1] && rest[|rest| - 1] == path[|path| - 1];
      forall j | 0 <= j < |rest| - 1
        ensures rest[j + 1] in Parts(family, rest[j])
      {
        assert path[i + 1 + j + 1] in Parts(family, path[i + 1 + j]);
      }
      assert Avoids(rest, inner) by {
        forall j | 0 <= j < |rest| && rest[j].Class?
          ensures rest[j].id !in inner
        {
          assert rest[j] == path[i + 1 + j];
        }
      }
      Complete(family, rest[0], inner, rest);
      assert path[i + 1] in Parts(family, path[i]);
      AnyIsExists(family, Parts(family, annotation), inner);
      assert annotation.Class? ==> path[0].id !in seen;
    }
  }

  /** `carries`, with a set of models seen, is true of exactly the types from which the state model,
      or a subclass of it, is reached on a path that avoids them. */
  lemma SeenIsOfThePath(family: Family, annotation: Annotation, seen: set<ClassId>)
    ensures Carries(family, annotation, seen)
       <==> exists path :: Leads(family, annotation, path) && Avoids(path, seen)
  {
    if path :| Leads(family, annotation, path) && Avoids(path, seen) {
      Complete(family, annotation, seen, path);
    }
    if Carries(family, annotation, seen) {
      var path := Sound(family, annotation, seen);
    }
  }

  /** `carries` is true of exactly the types from which the state model, or a subclass of it, is
      reached through fields and type arguments, however the models refer to one another. */
  lemma CarriesIsReachability(family: Family, annotation: Annotation)
    ensures Carries(family, annotation, {}) <==> exists path :: Leads(family, annotation, path)
  {
    SeenIsOfThePath(family, annotation, {});
    if path :| Leads(family, annotation, path) {
      assert Avoids(path, {});
    }
  }
}

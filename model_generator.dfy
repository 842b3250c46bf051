/**
  The pure steps of the `model` command of tools/core/model.go: the struct name
  derived from the requested model name, the substitution of that name into the
  model template, and the registration of the new model in the migration list
  of model/database.go, guarded by a check that it is not already there. The
  name validation, the file checks, reading and writing the files and the
  console messages around these steps are not part of this model; the way the
  rewritten migration text lands in the file is.
 */
module ModelGenerator {
  import opened GoStrings
  import Stringable

  /** The placeholder the model template carries for the struct name. */
  const Placeholder: string := "${modelName}"

  /** The text after which a new model is registered. */
  const Anchor: string := "AutoMigrate(\n"

  /** The struct name generated for the model name `p`. */
  function ModelName(p: string): (name: string)
    ensures |name| == |p|
    ensures |p| > 0 ==> name[0] == UpperChar(p[0]) && name[1..] == p[1..]
  {
    Stringable.Capitalize(p)
  }

  /** What the guard looks for: the model already listed as `&Name{}`. */
  function Marker(name: string): string
  {
    "&" + name + "{}"
  }

  /** The line inserted into the migration list. */
  function Registration(name: string): (line: string)
    ensures |line| == |name| + 7
    ensures line == "\t\t" + Marker(name) + ",\n"
  {
    "\t\t&" + name + "{},\n"
  }

  /** The new model file: every placeholder of the template replaced by the struct name. */
  function RenderTemplate(template: string, p: string): string
  {
    ReplaceAll(template, Placeholder, ModelName(p))
  }

  /**
    A template whose literal text never uses `$` is rendered by putting the
    struct name exactly where the placeholders were, with all other text kept.
   */
  lemma RenderTemplateFillsPlaceholders(pieces: seq<string>, p: string)
    requires forall i :: 0 <= i < |pieces| ==> '$' !in pieces[i]
    ensures RenderTemplate(JoinWith(pieces, Placeholder), p) == JoinWith(pieces, ModelName(p))
  {
    ReplaceAllJoined(pieces, Placeholder, ModelName(p));
  }

  /**
    For any template, the rendered file grows by the difference between the
    struct name and the placeholder once per placeholder, and a template
    without the placeholder is copied unchanged.
   */
  lemma RenderTemplateLength(template: string, p: string)
    ensures |RenderTemplate(template, p)|
         == |template| + Count(template, Placeholder) * (|ModelName(p)| - |Placeholder|)
    ensures !Contains(template, Placeholder) ==> RenderTemplate(template, p) == template
  {
    ReplaceAllLength(template, Placeholder, ModelName(p));
    if !Contains(template, Placeholder) {
      ReplaceAllAbsent(template, Placeholder, ModelName(p));
    }
  }

  /**
    The migration text after registering `name`: unchanged when it already
    lists the model, otherwise the registration line inserted after every
    anchor.
   */
  function RegisterModel(migration: string, name: string): string
  {
    if Contains(migration, Marker(name)) then migration
    else ReplaceAll(migration, Anchor, Anchor + Registration(name))
  }

  /** The registration line contains the marker the guard looks for. */
  lemma RegistrationHasMarker(name: string)
    ensures Contains(Anchor + Registration(name), Marker(name))
  {
    var m := Marker(name);
    var tail := m + ",\n";
    assert HasPrefix(tail, m) by {
      assert tail[..|m|] == m;
    }
    assert Contains("\t\t" + tail, m) by {
      ContainsInSuffix("\t\t", tail, m);
    }
    assert Anchor + Registration(name) == Anchor + ("\t\t" + tail);
    ContainsInSuffix(Anchor, "\t\t" + tail, m);
  }

  /** A migration text that already lists the model is left exactly as it is. */
  lemma RegisterGuard(migration: string, name: string)
    requires Contains(migration, Marker(name))
    ensures RegisterModel(migration, name) == migration
  {
  }

  /**
    Registering grows the text by one registration line per anchor; with no
    anchor it changes nothing, and with an anchor the model is listed afterwards.
   */
  lemma {:induction false} RegisterLength(migration: string, name: string)
    requires !Contains(migration, Marker(name))
    ensures |RegisterModel(migration, name)| == |migration| + Count(migration, Anchor) * |Registration(name)|
    ensures !Contains(migration, Anchor) ==> RegisterModel(migration, name) == migration
    ensures Contains(migration, Anchor) ==> Contains(RegisterModel(migration, name), Marker(name))
  {
    var rep := Anchor + Registration(name);
    ReplaceAllLength(migration, Anchor, rep);
    assert |rep| - |Anchor| == |Registration(name)|;
    if !Contains(migration, Anchor) {
      ReplaceAllAbsent(migration, Anchor, rep);
    } else {
      RegistrationHasMarker(name);
      ReplaceAllInserts(migration, Anchor, rep, Marker(name));
    }
  }

  /** Registering the same model twice gives the same text as registering it once. */
  lemma {:induction false} RegisterIdempotent(migration: string, name: string)
    ensures RegisterModel(RegisterModel(migration, name), name) == RegisterModel(migration, name)
  {
    if !Contains(migration, Marker(name)) {
      RegisterLength(migration, name);
    }
  }

  /**
    In a migration text with one anchor and no listing of the model yet, the
    registration line is inserted right after the anchor and nothing else
    changes.
   */
  lemma RegisterInsertsAfterAnchor(before: string, after: string, name: string)
    requires forall k :: 0 <= k < |before| ==> !HasPrefix((before + Anchor + after)[k..], Anchor)
    requires !Contains(after, Anchor)
    requires !Contains(before + Anchor + after, Marker(name))
    ensures RegisterModel(before + Anchor + after, name) == before + Anchor + Registration(name) + after
  {
    var rep := Anchor + Registration(name);
    ReplaceSingle(before, after, Anchor, rep);
    ConcatAssoc(before, Anchor, Registration(name), after);
  }

  /** Regrouping a four-part concatenation. */
  lemma ConcatAssoc(a: string, b: string, c: string, d: string)
    ensures a + (b + c) + d == a + b + c + d
  {
  }

  /**
    The file after seeking to its start and writing `content` over `previous`
    without truncating: a shorter content would leave the tail of the old text
    behind.
   */
  function Overwrite(previous: string, content: string): (file: string)
    ensures |file| == if |content| < |previous| then |previous| else |content|
    ensures file[..|content|] == content
  {
    if |content| < |previous| then content + previous[|content|..] else content
  }

  /**
    The rewritten migration is never shorter than the text it replaces, so
    writing it over the file from the start leaves exactly the rewritten text.
   */
  lemma RegisterOverwritesCleanly(migration: string, name: string)
    ensures |RegisterModel(migration, name)| >= |migration|
    ensures Overwrite(migration, RegisterModel(migration, name)) == RegisterModel(migration, name)
  {
    var content := RegisterModel(migration, name);
    if !Contains(migration, Marker(name)) {
      RegisterLength(migration, name);
      NonNegativeProduct(Count(migration, Anchor), |Registration(name)|);
    }
    OverwriteLonger(migration, content);
  }

  /** Writing a content at least as long as the file replaces all of it. */
  lemma OverwriteLonger(previous: string, content: string)
    requires |content| >= |previous|
    ensures Overwrite(previous, content) == content
  {
  }

  /** A product of two naturals is not negative. */
  lemma NonNegativeProduct(a: nat, b: nat)
    ensures a * b >= 0
  {
  }
}

/**
 The validation rule of the new-post form: from the form's field values to
 an error object. An empty error object means the form may be submitted.
 */
module PostsNewForm {

  /** The three fields of the form, by the names they carry in `values`. */
  const FieldNames: set<string> := {"title", "categories", "content"}

  const TitleMessage := "Enter a title!"
  const CategoriesMessage := "Enter some categories"
  const ContentMessage := "Enter some content please"

  /**
   JavaScript falsiness of `values[name]` for a text field: the field is
   missing from the values object, or holds the empty string.
   */
  predicate Falsy(values: map<string, string>, name: string) {
    name !in values || values[name] == ""
  }

  /** The message shown under a field the user left empty. */
  function MessageFor(name: string): string
    requires name in FieldNames
  {
    if name == "title" then TitleMessage
    else if name == "categories" then CategoriesMessage
    else ContentMessage
  }

  /** The error object stated declaratively: one message per empty field. */
  function Errors(values: map<string, string>): map<string, string> {
    map name | name in FieldNames && Falsy(values, name) :: MessageFor(name)
  }

  /**
   `validate(values)`: starts from an empty error object and adds a message
   for each of title, categories and content that is falsy.
   */
  method Validate(values: map<string, string>) returns (errors: map<string, string>)
    ensures errors.Keys <= FieldNames
    ensures "title" in errors <==> Falsy(values, "title")
    ensures "title" in errors ==> errors["title"] == TitleMessage
    ensures "categories" in errors <==> Falsy(values, "categories")
    ensures "categories" in errors ==> errors["categories"] == CategoriesMessage
    ensures "content" in errors <==> Falsy(values, "content")
    ensures "content" in errors ==> errors["content"] == ContentMessage
    ensures errors == map[] <==>
      !Falsy(values, "title") && !Falsy(values, "categories") && !Falsy(values, "content")
    ensures errors == Errors(values)
  {
    errors := map[];
    if Falsy(values, "title") {
      errors := errors["title" := TitleMessage];
    }
    if Falsy(values, "categories") {
      errors := errors["categories" := CategoriesMessage];
    }
    if Falsy(values, "content") {
      errors := errors["content" := ContentMessage];
    }
  }

  /** There are never more than three errors. */
  lemma AtMostThreeErrors(values: map<string, string>)
    ensures |Errors(values)| <= 3
  {
    var keys := Errors(values).Keys;
    assert FieldNames == keys + (FieldNames - keys);
    assert |FieldNames| == |keys| + |FieldNames - keys|;
    assert |FieldNames| == 3;
  }

  /** The form is valid exactly when all three fields are filled in. */
  lemma ValidIffAllFilled(values: map<string, string>)
    ensures Errors(values) == map[] <==> forall name :: name in FieldNames ==> !Falsy(values, name)
  {
    if Errors(values) == map[] {
      forall name | name in FieldNames ensures !Falsy(values, name) {
        assert name !in Errors(values);
      }
    }
  }

  /**
   Whether a field has an error, and which, depends only on that field's own
   value: two value objects that agree on the field give the same verdict on it.
   */
  lemma ErrorDependsOnlyOnOwnField(v1: map<string, string>, v2: map<string, string>, name: string)
    requires name in v1 <==> name in v2
    requires name in v1 ==> v1[name] == v2[name]
    ensures name in Errors(v1) <==> name in Errors(v2)
    ensures name in Errors(v1) ==> Errors(v1)[name] == Errors(v2)[name]
  {
  }
}

/** The category validator (src/validators/categoryValidator.js). The `isURL` check
    belongs to a library and is a parameter of the model. */
module CategoryValidator {
  import opened Wrappers
  import Text
  import opened Validation

  datatype CategoryBody = CategoryBody(
    name: Option<Json>, slug: Option<Json>, description: Option<Json>,
    image: Option<Json>, parentId: Option<Json>)

  predicate IsSlugChar(c: char) { Text.IsLower(c) || Text.IsDigit(c) || c == '-' }

  /** `^[a-z0-9-]+$`. */
  predicate SlugPattern(t: string) {
    t != [] && Text.All(t, IsSlugChar)
  }

  function SlugErrors(v: Option<Json>): (r: seq<string>)
    ensures r == [] <==> 2 <= |Trimmed(v)| <= 50 && SlugPattern(Trimmed(v))
  {
    var t := Trimmed(v);
    Check(t != "", "Slug is required") +
    Check(LengthIn(t, 2, 50), "Slug must be between 2 and 50 characters") +
    Check(SlugPattern(t), "Slug can only contain lowercase letters, numbers, and hyphens")
  }

  /** `validateCategory`. */
  function CategoryErrors(b: CategoryBody, isUrl: string -> bool): (r: seq<string>)
  {
    RequiredText(b.name, 2, 50, "Category name is required", "Category name must be between 2 and 50 characters") +
    SlugErrors(b.slug) +
    Optional(b.description, Check(|Trimmed(b.description)| <= 500, "Description cannot exceed 500 characters")) +
    Optional(b.image, Check(isUrl(Trimmed(b.image)), "Image must be a valid URL")) +
    Optional(b.parentId, Check(UuidPattern(Trimmed(b.parentId)), "Parent ID must be a valid UUID"))
  }

  /** A category passes exactly when its trimmed name has 2 to 50 characters, its
      trimmed slug has 2 to 50 characters drawn from lower-case letters, digits and
      hyphens, and the optional description, image and parent id, when sent, are at
      most 500 characters, a URL and a UUID. */
  lemma CategoryAcceptsIff(b: CategoryBody, isUrl: string -> bool)
    ensures Validate(CategoryErrors(b, isUrl)).Success? <==>
      2 <= |Trimmed(b.name)| <= 50 &&
      2 <= |Trimmed(b.slug)| <= 50 &&
      (forall i :: 0 <= i < |Trimmed(b.slug)| ==> IsSlugChar(Trimmed(b.slug)[i])) &&
      (b.description.None? || |Trimmed(b.description)| <= 500) &&
      (b.image.None? || isUrl(Trimmed(b.image))) &&
      (b.parentId.None? || UuidShape(Trimmed(b.parentId)))
  {
    var r1 := RequiredText(b.name, 2, 50, "Category name is required", "Category name must be between 2 and 50 characters");
    var r2 := SlugErrors(b.slug);
    var r3 := Optional(b.description, Check(|Trimmed(b.description)| <= 500, "Description cannot exceed 500 characters"));
    var r4 := Optional(b.image, Check(isUrl(Trimmed(b.image)), "Image must be a valid URL"));
    var r5 := Optional(b.parentId, Check(UuidPattern(Trimmed(b.parentId)), "Parent ID must be a valid UUID"));
    assert CategoryErrors(b, isUrl) == r1 + r2 + r3 + r4 + r5;
    NoErrorsIff(r1, r2, r3, r4, r5);
    Text.AllIff(Trimmed(b.slug), IsSlugChar);
    assert r2 == [] <==> 2 <= |Trimmed(b.slug)| <= 50 && forall i :: 0 <= i < |Trimmed(b.slug)| ==> IsSlugChar(Trimmed(b.slug)[i]);
    UuidPatternIff(Trimmed(b.parentId));
    assert r5 == [] <==> b.parentId.None? || UuidShape(Trimmed(b.parentId));
  }
}

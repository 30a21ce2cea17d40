/** The sort-order helper of the admin tests: which name tuple a row of an ordered
    foreign-key column stands for. */
module AdminHelpers {
  import opened Strings
  import opened Wrappers

  /** What `coerced_fk_field_helper` gives back: a `ValueError` for a missing first name
      or an empty shorthand, an `IndexError` when the first name holds no separator, the
      one-element tuple, the pair, or `None`. */
  datatype Coerced =
    | MissingFirstName
    | EmptyShorthand
    | NoSeparator
    | Single(first: string)
    | Pair(first: string, last: string)
    | NoMatch

  /** `coerced_fk_field_helper(first_name, last_name, field_name, queryset_shorthand)`. */
  function CoercedFkField(firstName: Option<string>, lastName: Option<string>, fieldName: string, shorthand: string): (r: Coerced)
    ensures r == EmptyShorthand <==> firstName.Some? && lastName.Some? && shorthand == []
    ensures r == MissingFirstName <==> firstName.None?
    ensures r.Single? <==> firstName.Some? && lastName.None?
    ensures r.Single? ==> r.first == firstName.value
    ensures r.Pair? ==> firstName == Some(r.first) && lastName == Some(r.last)
  {
    if firstName.None? then MissingFirstName
    else if lastName.None? then Single(firstName.value)
    else if shorthand == [] then EmptyShorthand
    else
      var pieces := Split(firstName.value, shorthand);
      if |pieces| < 2 then NoSeparator
      else if pieces[1] == fieldName then Pair(firstName.value, lastName.value)
      else NoMatch
  }

  /** With both names present, the helper fails exactly when the first name does not
      contain the shorthand. */
  lemma NoSeparatorIff(first: string, last: string, fieldName: string, shorthand: string)
    requires shorthand != []
    ensures CoercedFkField(Some(first), Some(last), fieldName, shorthand) == NoSeparator
            <==> !Contains(first, shorthand)
  {
    SplitHasSecondPieceIff(first, shorthand);
  }

  /** A string without the separator character splits into itself alone. */
  lemma {:induction false} SplitWithoutSeparator(s: string, c: char)
    requires c !in s
    ensures Split(s, [c]) == [s]
    decreases |s|
  {
    if |s| >= 1 {
      assert s[0] != c;
      assert c !in s[1..];
      SplitWithoutSeparator(s[1..], c);
      assert [s[0]] + s[1..] == s;
    }
  }

  /** Splitting at a single character that the leading part does not contain peels that
      part off as the first piece. */
  lemma {:induction false} SplitAtFirstSeparator(p: string, c: char, rest: string)
    requires c !in p
    ensures Split(p + [c] + rest, [c]) == [p] + Split(rest, [c])
    decreases |p|
  {
    var s := p + [c] + rest;
    if p == [] {
      assert s[..1] == [c] && s[1..] == rest;
    } else {
      assert s[0] == p[0] && p[0] != c;
      assert s[1..] == p[1..] + [c] + rest;
      assert c !in p[1..];
      SplitAtFirstSeparator(p[1..], c, rest);
      assert [p[0]] + p[1..] == p;
    }
  }

  /** A first name built as `<prefix>:<field>` (neither part holding the separator)
      yields the pair exactly when `<field>` is the field being checked. */
  lemma QualifiedFirstName(prefix: string, field: string, last: string, fieldName: string, c: char)
    requires c !in prefix && c !in field
    ensures CoercedFkField(Some(prefix + [c] + field), Some(last), fieldName, [c])
            == if field == fieldName then Pair(prefix + [c] + field, last) else NoMatch
  {
    SplitAtFirstSeparator(prefix, c, field);
    SplitWithoutSeparator(field, c);
  }
}

/**
 * The session attributes: the dictionary the platform hands back each turn.
 * The handler reads it and display_recipe_content writes the last recipe's
 * text and name into it in place.
 */
module Session {
  import opened Wrappers

  const ContentKey := "last_recipe_content"
  const NameKey := "last_recipe_name"

  /** The caller's attributes dictionary; values are strings. */
  class SessionAttributes {
    var attrs: map<string, string>

    constructor (initial: map<string, string>)
      ensures attrs == initial
    {
      attrs := initial;
    }

    /** session_attributes[key] = value. */
    method Set(key: string, value: string)
      modifies this
      ensures attrs == old(attrs)[key := value]
    {
      attrs := attrs[key := value];
    }
  }

  /** dict.get(key): the value, or None when the key is absent. */
  function Get(attrs: map<string, string>, key: string): (r: Option<string>)
    ensures r.Some? <==> key in attrs
    ensures r.Some? ==> r.value == attrs[key]
  {
    if key in attrs then Some(attrs[key]) else None
  }

  /** Python truthiness of an optional string: present and non-empty. */
  predicate Truthy(o: Option<string>) {
    o.Some? && o.value != []
  }

  /** The attributes after display_recipe_content saved a recipe. */
  function Remember(attrs: map<string, string>, content: string, name: string): (m: map<string, string>)
    ensures ContentKey in m && m[ContentKey] == content
    ensures NameKey in m && m[NameKey] == name
    ensures forall k :: k != ContentKey && k != NameKey ==> (k in m <==> k in attrs)
    ensures forall k :: k != ContentKey && k != NameKey && k in attrs ==> m[k] == attrs[k]
  {
    attrs[ContentKey := content][NameKey := name]
  }

  /** Both recipe keys or neither: the handler only ever writes the two together. */
  predicate Paired(attrs: map<string, string>) {
    ContentKey in attrs <==> NameKey in attrs
  }

  /** Saving the recipe the session already holds leaves the attributes as they were. */
  lemma RememberSame(attrs: map<string, string>)
    requires ContentKey in attrs && NameKey in attrs
    ensures Remember(attrs, attrs[ContentKey], attrs[NameKey]) == attrs
  {
    var m := Remember(attrs, attrs[ContentKey], attrs[NameKey]);
    assert forall k :: k in m <==> k in attrs;
    assert forall k :: k in m ==> m[k] == attrs[k];
  }
}

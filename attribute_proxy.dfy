/**
 * bng::xml::AttributeProxy: a handle on one entry of a node's attribute map. It records
 * whether the key was present when the handle was made (the captured map iterator) and
 * writes through map[name].
 */
module AttributeProxies {
  import opened Wrappers
  import opened OrderedMaps
  import opened Attributes

  /** std::map<std::string, Attribute> as an ordered association list. */
  type AttributeMap = seq<(string, Attribute)>

  /** The proxy's name and whether its captured position is a real entry (not end()). */
  datatype AttributeProxy = AttributeProxy(name: string, found: bool)

  /** Node::attr building a proxy with find(name). */
  function Find(attrs: AttributeMap, name: string): (p: AttributeProxy)
    ensures p.name == name && (p.found <==> Contains(attrs, name))
  {
    AttributeProxy(name, Lookup(attrs, name).Some?)
  }

  /** A found proxy's entry is still in the map (attributes are never erased). */
  predicate Tracks(p: AttributeProxy, attrs: AttributeMap)
  {
    p.found ==> Contains(attrs, p.name)
  }

  /** isSet: the key was present when the proxy was made. */
  predicate IsSet(p: AttributeProxy)
  {
    p.found
  }

  /** operator=: map[name] = v inserts or overwrites this key and leaves the others. */
  function Assign(p: AttributeProxy, attrs: AttributeMap, v: Attribute): (r: AttributeMap)
    ensures Lookup(r, p.name) == Some(v)
    ensures forall q :: q != p.name ==> Lookup(r, q) == Lookup(attrs, q)
    ensures Ordered(attrs) ==> Ordered(r)
  {
    UpsertSpec(attrs, p.name, v);
    if Ordered(attrs) then UpsertOrdered(attrs, p.name, v); Upsert(attrs, p.name, v)
    else Upsert(attrs, p.name, v)
  }

  /** value(): the stored payload; dereferencing end() is undefined, so the proxy must be set. */
  function Value(p: AttributeProxy, attrs: AttributeMap): (v: Attribute)
    requires p.found && Tracks(p, attrs)
    ensures Lookup(attrs, p.name) == Some(v)
  {
    Lookup(attrs, p.name).value
  }

  /** operator==: false for an unset proxy whatever the operand, else a comparison of the stored value. */
  predicate Equals(p: AttributeProxy, attrs: AttributeMap, v: Attribute)
    requires Tracks(p, attrs)
    ensures Equals(p, attrs, v) <==> p.found && Lookup(attrs, p.name) == Some(v)
  {
    if !p.found then false else Equal(Value(p, attrs), v)
  }

  /** operator!=: the negation of operator==, so an unset proxy differs from everything. */
  predicate NotEquals(p: AttributeProxy, attrs: AttributeMap, v: Attribute)
    requires Tracks(p, attrs)
    ensures NotEquals(p, attrs, v) <==> !p.found || Lookup(attrs, p.name) != Some(v)
  {
    !Equals(p, attrs, v)
  }

  /**
   * as<std::string>() with its T() default, and equally operator<<: the empty string for an
   * unset proxy, the stored payload's raw text otherwise.
   */
  function AsString(p: AttributeProxy, attrs: AttributeMap): (r: string)
    requires Tracks(p, attrs)
    ensures !p.found ==> r == ""
    ensures p.found ==> exists v :: Lookup(attrs, p.name) == Some(v) && r == Attributes.AsString(v)
  {
    if !p.found then "" else Attributes.AsString(Value(p, attrs))
  }

  /** Writing through any proxy keeps every other proxy on the same map valid. */
  lemma AssignKeepsTracking(p: AttributeProxy, q: AttributeProxy, attrs: AttributeMap, v: Attribute)
    requires Tracks(q, attrs)
    ensures Tracks(q, Assign(p, attrs, v))
  {
  }

  /**
   * A proxy made before its key existed still reports unset after a value is assigned
   * through it, while a proxy made afterwards sees the value.
   */
  lemma StaleProxy(attrs: AttributeMap, name: string, v: Attribute)
    requires !Contains(attrs, name)
    ensures var p := Find(attrs, name);
      var after := Assign(p, attrs, v);
      Tracks(p, after) && !IsSet(p) && !Equals(p, after, v) && AsString(p, after) == "" &&
      IsSet(Find(after, name)) && Equals(Find(after, name), after, v)
  {
  }
}

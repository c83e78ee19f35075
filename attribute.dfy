/** bng::xml::Attribute: a numeric-or-string scalar held by an XML node. */
module Attributes {

  /**
   * The payload variant boost::variant<Decimal, std::string>. A Decimal is kept as the
   * decimal text it stores; its conversions from float and double are not modelled.
   */
  datatype Attribute = Decimal(text: string) | Str(s: string)

  /** Attribute(): the variant's first alternative, a Decimal with empty text. */
  const DefaultAttribute: Attribute := Decimal("")

  /** operator==: the same alternative with an equal payload; decimals compare their text. */
  predicate Equal(a: Attribute, v: Attribute)
    ensures Equal(a, v) <==> (a.Decimal? && v.Decimal? && a.text == v.text) || (a.Str? && v.Str? && a.s == v.s)
  {
    a == v
  }

  /** The ToString visitor behind toString and operator<<. */
  function ToString(a: Attribute): string
  {
    if a.Str? then "\"" + a.s + "\"" else a.text
  }

  /** toString writes a string payload between double quotes, without escaping, and a decimal as its text. */
  lemma ToStringQuotes(a: Attribute)
    ensures a.Str? ==> |ToString(a)| == |a.s| + 2 && ToString(a)[0] == '"' && ToString(a)[|ToString(a)| - 1] == '"' &&
                       ToString(a)[1..|ToString(a)| - 1] == a.s
    ensures a.Decimal? ==> ToString(a) == a.text
  {
    if a.Str? {
      assert ToString(a) == "\"" + a.s + "\"";
    }
  }

  /** as<std::string>(): lexical_cast of the variant, the raw text of either alternative. */
  function AsString(a: Attribute): string
  {
    match a
    case Str(s) => s
    case Decimal(t) => t
  }

  /** Decimal text produced by lexical_cast never begins with a quote character. */
  predicate NumericText(a: Attribute)
  {
    a.Decimal? ==> |a.text| == 0 || a.text[0] != '"'
  }

  /** Quoting keeps the two alternatives apart: toString identifies the attribute. */
  lemma ToStringInjective(a: Attribute, b: Attribute)
    requires NumericText(a) && NumericText(b)
    ensures ToString(a) == ToString(b) <==> a == b
  {
    ToStringQuotes(a);
    ToStringQuotes(b);
    if ToString(a) == ToString(b) {
      if a.Str? && b.Str? {
        assert a.s == ToString(a)[1..|ToString(a)| - 1];
      }
    }
  }

  /** as<string> gives what toString prints, less the quotes toString puts around a string. */
  lemma AsStringUnquoted(a: Attribute)
    ensures ToString(a) == if a.Str? then "\"" + AsString(a) + "\"" else AsString(a)
  {
  }

  /** operator<< and toString print a string payload differently from as<string>: only decimals print raw. */
  lemma ToStringIsRawOnlyForDecimals(a: Attribute)
    ensures ToString(a) == AsString(a) <==> a.Decimal?
  {
    ToStringQuotes(a);
  }
}

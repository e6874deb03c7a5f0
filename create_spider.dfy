/**
 * The spider scaffolding command's checks: a spider name must be an
 * ASCII letter followed by ASCII letters, digits and underscores, and the
 * spider type picks the file template. The name rules are shared with the
 * project scaffolding command.
 */
module CreateSpiders {
  import opened Common

  predicate Letter(c: char) {
    'a' <= c <= 'z' || 'A' <= c <= 'Z'
  }

  /** The regex class `[0-9a-zA-Z_]`. */
  predicate WordChar(c: char) {
    Letter(c) || '0' <= c <= '9' || c == '_'
  }

  /** The regex class `[0-9_]`. */
  predicate DigitOrUnderscore(c: char) {
    '0' <= c <= '9' || c == '_'
  }

  /**
   * The length of what `re.match(r'[0-9a-zA-Z_]+', s)` matches, 0 where
   * there is no match: the longest prefix of word characters.
   */
  function WordPrefix(s: string): (n: nat)
    ensures n <= |s|
    ensures forall i :: 0 <= i < n ==> WordChar(s[i])
    ensures n < |s| ==> !WordChar(s[n])
  {
    if s == [] || !WordChar(s[0]) then 0 else 1 + WordPrefix(s[1..])
  }

  /** What the error message asks for: a letter first, then only letters, digits and underscores. */
  predicate ValidName(name: string) {
    |name| > 0 && Letter(name[0]) && forall i :: 0 <= i < |name| ==> WordChar(name[i])
  }

  /** The template a spider type is written from. */
  datatype Template = SpiderTemplate | DistributiveSpiderTemplate

  /** `CreateSpider(spider_name, spider_type)`: the fields check_name and create use. */
  datatype CreateSpider = CreateSpider(spiderName: string, spiderType: int)

  /** The template chosen in `__init__`: type 2 is the distributive spider, any other the plain one. */
  function TemplateOf(c: CreateSpider): (t: Template)
    ensures t == DistributiveSpiderTemplate <==> c.spiderType == 2
    ensures t == SpiderTemplate <==> c.spiderType != 2
  {
    if c.spiderType == 2 then DistributiveSpiderTemplate else SpiderTemplate
  }

  /**
   * CreateSpider.check_name: no match of `[0-9_]` at the start and a match
   * of `[0-9a-zA-Z_]+` that is the whole name give True; anything else
   * raises NameError.
   */
  function CheckName(c: CreateSpider): (r: Result<bool>)
    ensures r.Ok? <==> ValidName(c.spiderName)
    ensures r.Ok? ==> r.value
    ensures r.Err? ==> r.error == NameError
  {
    var name := c.spiderName;
    var m := WordPrefix(name);
    if !(|name| > 0 && DigitOrUnderscore(name[0])) && m > 0 && m == |name| then Ok(true)
    else Err(NameError)
  }

  /**
   * The cases the error message names: an empty name, a name starting with
   * a digit or an underscore, and a name with any other character are all
   * refused.
   */
  lemma RefusedNames(c: CreateSpider)
    ensures var name := c.spiderName;
            name == [] || DigitOrUnderscore(name[0]) || (exists i :: 0 <= i < |name| && !WordChar(name[i]))
            ==> CheckName(c) == Err(NameError)
  {
  }
}

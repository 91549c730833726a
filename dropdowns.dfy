/**
 * The court-complex and case-type dropdowns: the `<option>` elements of a `<select>`,
 * with the placeholder entries dropped.
 */
module Dropdowns {
  import opened Text
  import opened Js
  import opened Collecting

  /** One `<option>` as cheerio reports it: `val()` (missing when the element has no value)
      and `text()`. */
  datatype OptionElement = OptionElement(value: Option<string>, text: string)

  /** An entry offered to the client. */
  datatype CourtOption = CourtOption(name: string, value: string)

  const CourtComplexSentinel := "select court complex"
  const CaseTypeSentinel := "select case type"

  /** `value && name && name.toLowerCase() !== sentinel && value !== "0"`, where `name` is the
      trimmed text. */
  predicate IsChoice(o: OptionElement, sentinel: string) {
    && o.value.Some? && o.value.value != ""
    && Trim(o.text) != ""
    && AsciiLower(Trim(o.text)) != sentinel
    && o.value.value != "0"
  }

  /** The test a dropdown applies, as one function value so that the loop and its
      specification name the same predicate. */
  function Keep(sentinel: string): OptionElement -> bool {
    o => IsChoice(o, sentinel)
  }

  /** `{ name, value }` with the trimmed text as the name. */
  function ToChoice(o: OptionElement): CourtOption {
    CourtOption(Trim(o.text), if o.value.Some? then o.value.value else "")
  }

  /** What a kept entry looks like: a non-empty value other than `"0"`, and a non-empty trimmed
      name that is not the placeholder. */
  predicate Offered(c: CourtOption, sentinel: string) {
    c.value != "" && c.value != "0" && c.name != "" && Trimmed(c.name) && AsciiLower(c.name) != sentinel
  }

  lemma ChoiceIsOffered(o: OptionElement, sentinel: string)
    requires IsChoice(o, sentinel)
    ensures Offered(ToChoice(o), sentinel)
  {
  }

  /** The `.each` loop that pushes the accepted options; every entry it returns is offered. */
  method ListChoices(options: seq<OptionElement>, sentinel: string) returns (choices: seq<CourtOption>)
    ensures choices == Collect(options, Keep(sentinel), ToChoice)
    ensures forall c :: c in choices ==> Offered(c, sentinel)
  {
    choices := [];
    var i := 0;
    while i < |options|
      invariant 0 <= i <= |options|
      invariant choices == Collect(options[..i], Keep(sentinel), ToChoice)
      invariant forall c :: c in choices ==> Offered(c, sentinel)
    {
      var o := options[i];
      assert options[..i + 1] == options[..i] + [o];
      CollectSnoc(options[..i], o, Keep(sentinel), ToChoice);
      if IsChoice(o, sentinel) {
        ChoiceIsOffered(o, sentinel);
        choices := choices + [CourtOption(Trim(o.text), o.value.value)];
      }
      i := i + 1;
    }
    assert options[..i] == options;
  }

  /** An option survives exactly when it passes every test, and it survives as its trimmed
      name and its value. */
  lemma ChoiceKeptIff(options: seq<OptionElement>, sentinel: string, c: CourtOption)
    ensures c in Collect(options, Keep(sentinel), ToChoice) <==>
      exists i :: 0 <= i < |options| && IsChoice(options[i], sentinel)
        && c == CourtOption(Trim(options[i].text), options[i].value.value)
  {
    CollectMembers(options, Keep(sentinel), ToChoice, c);
  }

  /** The placeholder test is the sentinel text and the value `"0"` only: an "All" entry with
      value `"all"` is offered as a choice. */
  lemma AllEntryIsKept(placeholder: OptionElement, all: OptionElement, padded: OptionElement)
    requires placeholder == OptionElement(Some("0"), "Select Court Complex")
    requires all == OptionElement(Some("all"), "All")
    requires padded == OptionElement(Some("101"), " X Court ")
    ensures Collect([placeholder, all, padded], Keep(CourtComplexSentinel), ToChoice)
         == [CourtOption("All", "all"), CourtOption("X Court", "101")]
  {
    ExampleChoices(placeholder, all, padded);
    DropFirstOfThree(placeholder, all, padded, CourtComplexSentinel);
  }

  lemma DropFirstOfThree(x: OptionElement, y: OptionElement, z: OptionElement, sentinel: string)
    requires !IsChoice(x, sentinel) && IsChoice(y, sentinel) && IsChoice(z, sentinel)
    ensures Collect([x, y, z], Keep(sentinel), ToChoice) == [ToChoice(y), ToChoice(z)]
  {
    var keep := Keep(sentinel);
    calc {
      Collect([x, y, z], keep, ToChoice);
      { assert [x, y, z] == [x, y] + [z];
        CollectSnoc([x, y], z, keep, ToChoice); }
      Collect([x, y], keep, ToChoice) + [ToChoice(z)];
      { assert [x, y] == [x] + [y];
        CollectSnoc([x], y, keep, ToChoice); }
      Collect([x], keep, ToChoice) + [ToChoice(y)] + [ToChoice(z)];
      { assert [x] == [] + [x];
        CollectSnoc([], x, keep, ToChoice); }
      [ToChoice(y), ToChoice(z)];
    }
  }

  lemma ExampleChoices(placeholder: OptionElement, all: OptionElement, padded: OptionElement)
    requires placeholder == OptionElement(Some("0"), "Select Court Complex")
    requires all == OptionElement(Some("all"), "All")
    requires padded == OptionElement(Some("101"), " X Court ")
    ensures !IsChoice(placeholder, CourtComplexSentinel)
    ensures IsChoice(all, CourtComplexSentinel) && ToChoice(all) == CourtOption("All", "all")
    ensures IsChoice(padded, CourtComplexSentinel) && ToChoice(padded) == CourtOption("X Court", "101")
  {
    TrimOfTrimmed("All");
    assert AsciiLower("All")[0] == 'a';
    TrimPadded();
  }

  lemma TrimPadded()
    ensures Trim(" X Court ") == "X Court"
  {
    var padded := " X Court ";
    assert padded[1..] == "X Court ";
    assert TrimStart(padded) == TrimStart("X Court ") == "X Court ";
    var tail := "X Court ";
    assert tail[..|tail| - 1] == "X Court";
    assert TrimEnd(tail) == TrimEnd("X Court") == "X Court";
  }
}

/** The searchable select box used by the admin forms: filtering the options by the
    typed text, the label on its trigger button, the check mark, and the popover
    state that selecting or creating an option updates (src/components/ui/combobox.tsx). */
module Combobox {
  import opened Common
  import opened Text

  /** One entry of the list: the value it stands for and the text shown for it. */
  datatype Choice = Choice(value: string, caption: string)

  const DefaultPlaceholder := "Select option..."

  /** The option's caption contains the typed text, ignoring ASCII case. */
  predicate Matches(o: Choice, input: string)
    ensures input == "" ==> Matches(o, input)
    ensures Matches(o, input) ==> |input| <= |o.caption|
  {
    assert Contains(Lower(o.caption), Lower(input)) ==> |input| <= |o.caption| by {
      if Contains(Lower(o.caption), Lower(input)) {
        var i: nat :| OccursAt(Lower(o.caption), Lower(input), i);
      }
    }
    Contains(Lower(o.caption), Lower(input))
  }

  /** The options whose caption contains the typed text, in their original order. */
  function Filtered(options: seq<Choice>, input: string): (r: seq<Choice>)
    ensures forall o :: o in r <==> o in options && Matches(o, input)
    ensures IsSubsequence(r, options)
    ensures forall o :: multiset(r)[o] == if Matches(o, input) then multiset(options)[o] else 0
  {
    if options == [] then []
    else
      var rest := Filtered(options[1..], input);
      assert forall o :: o in options <==> o == options[0] || o in options[1..];
      assert options == [options[0]] + options[1..];
      assert multiset(options) == multiset{options[0]} + multiset(options[1..]);
      if Matches(options[0], input) then
        assert ([options[0]] + rest)[1..] == rest;
        [options[0]] + rest
      else
        SubsequenceWiden(rest, options[0], options[1..]);
        assert [options[0]] + options[1..] == options;
        rest
  }

  /** With nothing typed every option is listed. */
  lemma {:induction false} EmptyInputKeepsAll(options: seq<Choice>)
    ensures Filtered(options, "") == options
  {
    if options != [] {
      assert OccursAt(Lower(options[0].caption), Lower(""), 0);
      EmptyInputKeepsAll(options[1..]);
    }
  }

  /** The check mark: shown on every option whose value equals the current one, ignoring case. */
  predicate Checked(current: string, o: Choice)
    ensures Checked(current, o) ==> |current| == |o.value|
  {
    assert EqualsIgnoreCase(current, o.value) ==> |Lower(current)| == |Lower(o.value)|;
    EqualsIgnoreCase(current, o.value)
  }

  /** Every option is checked when the value is its own, and its caption matches itself
      as typed text. */
  lemma OptionMatchesItself(o: Choice)
    ensures Checked(o.value, o)
    ensures Matches(o, o.caption)
  {
    assert OccursAt(Lower(o.caption), Lower(o.caption), 0);
  }

  /** The value handed to the form when an option is picked: picking the checked option
      clears the value, picking any other one sets it to that option's value. */
  function SelectValue(current: string, o: Choice): (v: string)
    ensures Checked(current, o) ==> v == ""
    ensures !Checked(current, o) ==> v == o.value
  {
    if EqualsIgnoreCase(o.value, current) then "" else o.value
  }

  /** Picking an option with a value toggles its check mark. */
  lemma SelectTogglesCheck(current: string, o: Choice)
    requires o.value != ""
    ensures Checked(SelectValue(current, o), o) <==> !Checked(current, o)
  {
    if !Checked(current, o) {
      assert Checked(o.value, o);
    } else {
      assert Lower(o.value)[0] == LowerChar(o.value[0]);
      assert Lower("") != Lower(o.value);
    }
  }

  /** Picking the same unchecked option twice leaves the value empty. */
  lemma SelectTwiceClears(current: string, o: Choice)
    requires !Checked(current, o)
    ensures SelectValue(SelectValue(current, o), o) == ""
  {
  }

  /** The first option whose value equals `value`, ignoring case. */
  function FindByValue(options: seq<Choice>, value: string): (r: Option<Choice>)
    ensures r.None? <==> forall o :: o in options ==> !EqualsIgnoreCase(o.value, value)
    ensures r.Some? ==> exists k :: 0 <= k < |options| && options[k] == r.value
                                   && EqualsIgnoreCase(r.value.value, value)
                                   && forall j :: 0 <= j < k ==> !EqualsIgnoreCase(options[j].value, value)
  {
    if options == [] then None
    else if EqualsIgnoreCase(options[0].value, value) then Some(options[0])
    else
      var r := FindByValue(options[1..], value);
      assert forall o :: o in options ==> o == options[0] || o in options[1..];
      if r.Some? then
        var k :| 0 <= k < |options[1..]| && options[1..][k] == r.value && EqualsIgnoreCase(r.value.value, value)
                 && forall j :: 0 <= j < k ==> !EqualsIgnoreCase(options[1..][j].value, value);
        assert options[k + 1] == r.value;
        assert forall j :: 0 <= j < k + 1 ==> !EqualsIgnoreCase(options[j].value, value) by {
          forall j | 0 <= j < k + 1 ensures !EqualsIgnoreCase(options[j].value, value) {
            if j > 0 {
              assert options[j] == options[1..][j - 1];
            }
          }
        }
        r
      else
        r
  }

  /** The text on the trigger button: with a value, the caption of the first option
      that has it (nothing when none has it); without one, the placeholder, falling
      back to the default when the placeholder is missing or empty. */
  function TriggerLabel(options: seq<Choice>, value: string, placeholder: Option<string>): (r: Option<string>)
    ensures value == "" ==> r == Some(if placeholder.Some? && placeholder.value != "" then placeholder.value
                                      else DefaultPlaceholder)
    ensures value != "" && r.Some? ==> exists o :: o in options && Checked(value, o) && r.value == o.caption
    ensures value != "" && r.None? ==> forall o :: o in options ==> !Checked(value, o)
    ensures value != "" ==> r == match FindByValue(options, value)
                                 case Some(o) => Some(o.caption)
                                 case None => None
  {
    if value != "" then
      match FindByValue(options, value)
      case Some(o) => Some(o.caption)
      case None => None
    else
      Some(if placeholder.Some? && placeholder.value != "" then placeholder.value else DefaultPlaceholder)
  }

  /** The open state and typed text of one combobox, together with the value of the
      form field it edits (the parent's state that `onChange` writes). */
  class Picker {
    const options: seq<Choice>
    const placeholder: Option<string>
    var value: string
    var open: bool
    var inputValue: string

    constructor (options: seq<Choice>, value: string, placeholder: Option<string>)
      ensures this.options == options && this.placeholder == placeholder
      ensures this.value == value && !open && inputValue == ""
    {
      this.options := options;
      this.placeholder := placeholder;
      this.value := value;
      open := false;
      inputValue := "";
    }

    /** The options listed under the search box. */
    function Listed(): seq<Choice>
      reads this
    {
      Filtered(options, inputValue)
    }

    function Label(): Option<string>
      reads this
    {
      TriggerLabel(options, value, placeholder)
    }

    method SetOpen(isOpen: bool)
      modifies this
      ensures open == isOpen && value == old(value) && inputValue == old(inputValue)
    {
      open := isOpen;
    }

    method Type(text: string)
      modifies this
      ensures inputValue == text && value == old(value) && open == old(open)
    {
      inputValue := text;
    }

    /** Picking the listed option at position `i` toggles the value and closes the popover. */
    method Select(i: nat)
      requires i < |Listed()|
      modifies this
      ensures value == SelectValue(old(value), old(Listed())[i])
      ensures old(Listed())[i] in options
      ensures !open && inputValue == old(inputValue)
      ensures value != "" ==> Label().Some?
    {
      var o := Listed()[i];
      value := SelectValue(value, o);
      open := false;
    }

    /** The "Create" button hands the typed text over unchanged and closes the popover. */
    method Create()
      modifies this
      ensures value == old(inputValue) && !open && inputValue == old(inputValue)
      ensures value != "" && (forall o :: o in options ==> !Checked(value, o)) ==> Label().None?
    {
      value := inputValue;
      open := false;
    }
  }
}

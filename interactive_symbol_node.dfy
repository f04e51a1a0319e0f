/**
 * An element symbol whose three numbers (proton count, mass number, charge)
 * are each either shown as fixed text or entered by the user through a
 * number entry. The symbol and the element name follow the proton count.
 */
module InteractiveSymbolNode {
  import opened Wrappers
  import opened NumberText
  import opened Particles
  import NumberEntryNode

  type NumberProperty = NumberEntryNode.NumberProperty
  type NumberEntry = NumberEntryNode.NumberEntryNode

  /** The options a caller may pass; an absent field takes its default. */
  datatype Options = Options(
    interactiveProtonCount: Option<bool>,
    interactiveMassNumber: Option<bool>,
    interactiveCharge: Option<bool>)

  /** Which of the three numbers the user enters. */
  datatype Flags = Flags(protonCount: bool, massNumber: bool, charge: bool)

  /** Fills each absent flag with its default, non-interactive. */
  function WithDefaults(options: Options): Flags {
    Flags(
      options.interactiveProtonCount == Some(true),
      options.interactiveMassNumber == Some(true),
      options.interactiveCharge == Some(true))
  }

  /** A number starts at zero when the user enters it, and at the answer atom's value otherwise. */
  function InitialValue(interactive: bool, atomValue: int): int {
    if interactive then 0 else atomValue
  }

  /** The options of the three number entries: counts in [0, 99], charge in [-99, 99] with a plus sign. */
  const PROTON_COUNT_ENTRY: NumberEntryNode.Options :=
    NumberEntryNode.Options(None, Some(NumberEntryNode.Finite(0)), Some(NumberEntryNode.Finite(99)))
  const MASS_NUMBER_ENTRY: NumberEntryNode.Options :=
    NumberEntryNode.Options(None, Some(NumberEntryNode.Finite(0)), Some(NumberEntryNode.Finite(99)))
  const CHARGE_ENTRY: NumberEntryNode.Options :=
    NumberEntryNode.Options(Some(true), Some(NumberEntryNode.Finite(-99)), Some(NumberEntryNode.Finite(99)))

  /** `updateElement` for one text: blank unless the proton count is positive, else the looked-up text. */
  function ElementText(protonCount: int, lookup: int -> string): string {
    if protonCount > 0 then lookup(protonCount) else ""
  }

  /** The text of a fixed charge: '+' before a positive charge, otherwise the plain number. */
  function ChargeText(charge: int): string {
    (if charge > 0 then "+" else "") + IntToString(charge)
  }

  /** All three numbers are fixed unless an option says otherwise. */
  lemma DefaultsNotInteractive()
    ensures WithDefaults(Options(None, None, None)) == Flags(false, false, false)
  {
  }

  /**
   * The entry ranges after defaults: proton count and mass number in [0, 99]
   * without a sign, charge in [-99, 99] with a plus sign; so each entry's
   * initial value zero lies within its range.
   */
  lemma EntryRanges()
    ensures var p := NumberEntryNode.WithDefaults(PROTON_COUNT_ENTRY);
      p == NumberEntryNode.Settings(false, NumberEntryNode.Finite(0), NumberEntryNode.Finite(99))
    ensures NumberEntryNode.WithDefaults(MASS_NUMBER_ENTRY) == NumberEntryNode.WithDefaults(PROTON_COUNT_ENTRY)
    ensures NumberEntryNode.WithDefaults(CHARGE_ENTRY) ==
      NumberEntryNode.Settings(true, NumberEntryNode.Finite(-99), NumberEntryNode.Finite(99))
    ensures NumberEntryNode.InRange(NumberEntryNode.WithDefaults(PROTON_COUNT_ENTRY), 0)
    ensures NumberEntryNode.InRange(NumberEntryNode.WithDefaults(CHARGE_ENTRY), 0)
  {
  }

  /** The element texts are blank exactly when the proton count is not positive, and otherwise looked up. */
  lemma ElementTextBlankRule(protonCount: int, lookup: int -> string)
    ensures protonCount <= 0 ==> ElementText(protonCount, lookup) == ""
    ensures protonCount > 0 ==> ElementText(protonCount, lookup) == lookup(protonCount)
  {
  }

  /**
   * A fixed charge is shown as the charge entry would show it: with '+'
   * exactly when positive, with '-' exactly when negative, and it reads back
   * as the charge.
   */
  lemma ChargeTextMeaning(charge: int)
    ensures ChargeText(charge) == DisplayText(true, charge)
    ensures |ChargeText(charge)| >= 1
    ensures ChargeText(charge)[0] == '+' <==> charge > 0
    ensures ChargeText(charge)[0] == '-' <==> charge < 0
    ensures ParseInt(ChargeText(charge)) == Some(charge)
  {
    DisplayTextMeaning(true, charge);
  }

  class InteractiveSymbolNode {
    const numberAtom: NumberAtom
    const flags: Flags
    const getSymbol: int -> string
    const getName: int -> string
    const protonCountProperty: NumberProperty
    const massNumberProperty: NumberProperty
    const chargeProperty: NumberProperty
    /** The number entries, present exactly for the interactive numbers. */
    const protonCountEntry: Option<NumberEntry>
    const massNumberEntry: Option<NumberEntry>
    const chargeEntry: Option<NumberEntry>
    /** The fixed texts, present exactly for the numbers that are not interactive. */
    const protonCountText: Option<string>
    const massNumberText: Option<string>
    const chargeText: Option<string>
    var symbolText: string
    var elementCaption: string

    /** The number entries that exist. */
    function Entries(): set<object>
      reads this
    {
      (if protonCountEntry.Some? then {protonCountEntry.value} else {}) +
      (if massNumberEntry.Some? then {massNumberEntry.value} else {}) +
      (if chargeEntry.Some? then {chargeEntry.value} else {})
    }

    /** One number's property, its entry or fixed text, and the flag that chooses between them. */
    ghost predicate NumberValid(interactive: bool, property: NumberProperty, entry: Option<NumberEntry>,
                                fixedText: Option<string>, entryOptions: NumberEntryNode.Options)
      reads property, if entry.Some? then {entry.value} else {}
    {
      (entry.Some? <==> interactive) && (fixedText.Some? <==> !interactive) &&
      (entry.Some? ==>
        entry.value.numberProperty == property &&
        entry.value.settings == NumberEntryNode.WithDefaults(entryOptions) &&
        entry.value.Synced())
    }

    ghost predicate Valid()
      reads this, protonCountProperty, massNumberProperty, chargeProperty, Entries()
    {
      protonCountProperty != massNumberProperty && protonCountProperty != chargeProperty &&
      massNumberProperty != chargeProperty &&
      (protonCountEntry.Some? && massNumberEntry.Some? ==> protonCountEntry.value != massNumberEntry.value) &&
      (protonCountEntry.Some? && chargeEntry.Some? ==> protonCountEntry.value != chargeEntry.value) &&
      (massNumberEntry.Some? && chargeEntry.Some? ==> massNumberEntry.value != chargeEntry.value) &&
      NumberValid(flags.protonCount, protonCountProperty, protonCountEntry, protonCountText, PROTON_COUNT_ENTRY) &&
      NumberValid(flags.massNumber, massNumberProperty, massNumberEntry, massNumberText, MASS_NUMBER_ENTRY) &&
      NumberValid(flags.charge, chargeProperty, chargeEntry, chargeText, CHARGE_ENTRY) &&
      protonCountProperty.initialValue == InitialValue(flags.protonCount, numberAtom.protonCount) &&
      massNumberProperty.initialValue == InitialValue(flags.massNumber, numberAtom.MassNumber()) &&
      chargeProperty.initialValue == InitialValue(flags.charge, numberAtom.Charge()) &&
      (flags.protonCount ==> ElementShows(protonCountProperty.value)) &&
      (!flags.protonCount ==> ElementShows(numberAtom.protonCount))
    }

    /** The symbol and caption are those of `protonCount`. */
    ghost predicate ElementShows(protonCount: int)
      reads this
    {
      symbolText == ElementText(protonCount, getSymbol) && elementCaption == ElementText(protonCount, getName)
    }

    /** `updateElement`. */
    method UpdateElement(protonCount: int)
      modifies this
      ensures ElementShows(protonCount)
    {
      symbolText := ElementText(protonCount, getSymbol);
      elementCaption := ElementText(protonCount, getName);
    }

    /**
     * Creates the three properties at their initial values and, for each
     * number, either an entry bounded as that number's options say or a
     * fixed text; the element texts follow the entered proton count when it
     * is interactive and the atom's otherwise.
     */
    constructor(numberAtom: NumberAtom, options: Options, getSymbol: int -> string, getName: int -> string)
      ensures Valid() && this.numberAtom == numberAtom && flags == WithDefaults(options)
      ensures protonCountProperty.value == InitialValue(flags.protonCount, numberAtom.protonCount)
      ensures massNumberProperty.value == InitialValue(flags.massNumber, numberAtom.MassNumber())
      ensures chargeProperty.value == InitialValue(flags.charge, numberAtom.Charge())
      ensures !flags.protonCount ==> protonCountText == Some(IntToString(numberAtom.protonCount))
      ensures !flags.massNumber ==> massNumberText == Some(IntToString(numberAtom.MassNumber()))
      ensures !flags.charge ==> chargeText == Some(ChargeText(numberAtom.Charge()))
    {
      var flags := WithDefaults(options);
      var protonCount := new NumberEntryNode.NumberProperty(InitialValue(flags.protonCount, numberAtom.protonCount));
      var massNumber := new NumberEntryNode.NumberProperty(InitialValue(flags.massNumber, numberAtom.MassNumber()));
      var charge := new NumberEntryNode.NumberProperty(InitialValue(flags.charge, numberAtom.Charge()));
      this.numberAtom := numberAtom;
      this.flags := flags;
      this.getSymbol := getSymbol;
      this.getName := getName;
      protonCountProperty := protonCount;
      massNumberProperty := massNumber;
      chargeProperty := charge;
      if flags.protonCount {
        var entry := new NumberEntryNode.NumberEntryNode(protonCount, PROTON_COUNT_ENTRY);
        protonCountEntry, protonCountText := Some(entry), None;
      } else {
        protonCountEntry, protonCountText := None, Some(IntToString(numberAtom.protonCount));
      }
      if flags.massNumber {
        var entry := new NumberEntryNode.NumberEntryNode(massNumber, MASS_NUMBER_ENTRY);
        massNumberEntry, massNumberText := Some(entry), None;
      } else {
        massNumberEntry, massNumberText := None, Some(IntToString(numberAtom.MassNumber()));
      }
      if flags.charge {
        var entry := new NumberEntryNode.NumberEntryNode(charge, CHARGE_ENTRY);
        chargeEntry, chargeText := Some(entry), None;
      } else {
        chargeEntry, chargeText := None, Some(ChargeText(numberAtom.Charge()));
      }
      symbolText := "";
      elementCaption := "";
      new;
      UpdateElement(if flags.protonCount then protonCount.value else numberAtom.protonCount);
    }

    /**
     * Pressing a button of the proton count entry: the entry steps the
     * value, and the element texts, linked to the same property, follow it.
     */
    method PressProtonCountButton(up: bool)
      requires Valid() && flags.protonCount
      modifies this, protonCountProperty, Entries()
      ensures Valid()
      ensures var e := protonCountEntry.value;
        protonCountProperty.value == old(protonCountProperty.value) +
          (if up && old(e.upEnabled) then 1 else if !up && old(e.downEnabled) then -1 else 0)
      ensures NumberEntryNode.InRange(NumberEntryNode.WithDefaults(PROTON_COUNT_ENTRY), old(protonCountProperty.value)) ==>
        NumberEntryNode.InRange(NumberEntryNode.WithDefaults(PROTON_COUNT_ENTRY), protonCountProperty.value)
      ensures massNumberProperty.value == old(massNumberProperty.value) && chargeProperty.value == old(chargeProperty.value)
    {
      var entry := protonCountEntry.value;
      var before := protonCountProperty.value;
      if up {
        entry.PressUp();
      } else {
        entry.PressDown();
      }
      if protonCountProperty.value != before {
        UpdateElement(protonCountProperty.value);
      }
    }

    /**
     * Returns the three properties to their initial values. A property whose
     * value changes notifies its listeners: its entry, if any, and for the
     * proton count the element texts when the proton count is entered.
     */
    method Reset()
      requires Valid()
      modifies this, protonCountProperty, massNumberProperty, chargeProperty, Entries()
      ensures Valid()
      ensures protonCountProperty.value == protonCountProperty.initialValue
      ensures massNumberProperty.value == massNumberProperty.initialValue
      ensures chargeProperty.value == chargeProperty.initialValue
      ensures !flags.protonCount ==> symbolText == old(symbolText) && elementCaption == old(elementCaption)
    {
      ResetProtonCount();
      ResetMassNumber();
      ResetCharge();
    }

    /** Resets the proton count; its entry and the element texts hear of a change. */
    method ResetProtonCount()
      requires Valid()
      modifies this, protonCountProperty, Entries()
      ensures Valid() && protonCountProperty.value == protonCountProperty.initialValue
      ensures massNumberProperty.value == old(massNumberProperty.value) && chargeProperty.value == old(chargeProperty.value)
      ensures !flags.protonCount ==> symbolText == old(symbolText) && elementCaption == old(elementCaption)
    {
      var before := protonCountProperty.value;
      protonCountProperty.Reset();
      if protonCountProperty.value != before && protonCountEntry.Some? {
        protonCountEntry.value.ValueChanged();
        UpdateElement(protonCountProperty.value);
      }
    }

    /** Resets the mass number; its entry hears of a change. */
    method ResetMassNumber()
      requires Valid()
      modifies massNumberProperty, Entries()
      ensures Valid() && massNumberProperty.value == massNumberProperty.initialValue
      ensures protonCountProperty.value == old(protonCountProperty.value) && chargeProperty.value == old(chargeProperty.value)
    {
      var before := massNumberProperty.value;
      massNumberProperty.Reset();
      if massNumberProperty.value != before && massNumberEntry.Some? {
        massNumberEntry.value.ValueChanged();
      }
    }

    /** Resets the charge; its entry hears of a change. */
    method ResetCharge()
      requires Valid()
      modifies chargeProperty, Entries()
      ensures Valid() && chargeProperty.value == chargeProperty.initialValue
      ensures protonCountProperty.value == old(protonCountProperty.value) && massNumberProperty.value == old(massNumberProperty.value)
    {
      var before := chargeProperty.value;
      chargeProperty.Reset();
      if chargeProperty.value != before && chargeEntry.Some? {
        chargeEntry.value.ValueChanged();
      }
    }
  }
}

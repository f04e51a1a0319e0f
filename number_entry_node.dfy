/**
 * A number entry: the value of a number property shown as text, with an up
 * button that adds one and a down button that subtracts one. Each button is
 * enabled only while the value is strictly inside the entry's bound on its
 * side.
 */
module NumberEntryNode {
  import opened Wrappers
  import opened NumberText

  /** An integer bound that may be infinite, as the defaults of the entry's range are. */
  datatype ExtInt = NegInf | Finite(n: int) | PosInf

  /** `v < bound`. */
  predicate Below(v: int, bound: ExtInt) {
    match bound
    case NegInf => false
    case Finite(n) => v < n
    case PosInf => true
  }

  /** `v > bound`. */
  predicate Above(v: int, bound: ExtInt) {
    match bound
    case NegInf => true
    case Finite(n) => v > n
    case PosInf => false
  }

  /** The options a caller may pass; an absent field takes its default. */
  datatype Options = Options(prependPlusSign: Option<bool>, minValue: Option<ExtInt>, maxValue: Option<ExtInt>)

  const NO_OPTIONS: Options := Options(None, None, None)

  /** The options after the defaults are filled in. */
  datatype Settings = Settings(prependPlusSign: bool, minValue: ExtInt, maxValue: ExtInt)

  /** Fills each absent option with its default: no plus sign, no lower bound, no upper bound. */
  function WithDefaults(options: Options): Settings {
    Settings(
      if options.prependPlusSign.Some? then options.prependPlusSign.value else false,
      if options.minValue.Some? then options.minValue.value else NegInf,
      if options.maxValue.Some? then options.maxValue.value else PosInf)
  }

  /** The value lies within the settings' range, bounds included. */
  predicate InRange(settings: Settings, v: int) {
    !Below(v, settings.minValue) && !Above(v, settings.maxValue)
  }

  /**
   * Without options there is no plus sign and both buttons are enabled
   * whatever the value.
   */
  lemma DefaultsAlwaysEnabled(v: int)
    ensures !WithDefaults(NO_OPTIONS).prependPlusSign
    ensures Below(v, WithDefaults(NO_OPTIONS).maxValue) && Above(v, WithDefaults(NO_OPTIONS).minValue)
  {
  }

  /** Options that are given are kept as given. */
  lemma GivenOptionsKept(options: Options)
    ensures options.prependPlusSign.Some? ==> WithDefaults(options).prependPlusSign == options.prependPlusSign.value
    ensures options.minValue.Some? ==> WithDefaults(options).minValue == options.minValue.value
    ensures options.maxValue.Some? ==> WithDefaults(options).maxValue == options.maxValue.value
  {
  }

  /**
   * A step up while the up button is enabled, or a step down while the down
   * button is enabled, keeps a value that was within range within range.
   */
  lemma StepKeepsRange(settings: Settings, v: int)
    requires InRange(settings, v)
    ensures Below(v, settings.maxValue) ==> InRange(settings, v + 1)
    ensures Above(v, settings.minValue) ==> InRange(settings, v - 1)
  {
  }

  /** An integer-valued property with the value it was created with, to which `Reset` returns. */
  class NumberProperty {
    var value: int
    const initialValue: int

    constructor(initialValue: int)
      ensures value == initialValue && this.initialValue == initialValue
    {
      value := initialValue;
      this.initialValue := initialValue;
    }

    method Reset()
      modifies this
      ensures value == initialValue
    {
      value := initialValue;
    }
  }

  class NumberEntryNode {
    const numberProperty: NumberProperty
    const settings: Settings
    var text: string
    var upEnabled: bool
    var downEnabled: bool

    /** The text and both buttons agree with the property's current value. */
    ghost predicate Synced()
      reads this, numberProperty
    {
      text == DisplayText(settings.prependPlusSign, numberProperty.value) &&
      upEnabled == Below(numberProperty.value, settings.maxValue) &&
      downEnabled == Above(numberProperty.value, settings.minValue)
    }

    /** Fills in the defaults and links to the property, which runs the link function once. */
    constructor(numberProperty: NumberProperty, options: Options)
      ensures this.numberProperty == numberProperty && settings == WithDefaults(options)
      ensures Synced()
    {
      this.numberProperty := numberProperty;
      settings := WithDefaults(options);
      new;
      ValueChanged();
    }

    /** The function linked to the property: redraw the text and set the buttons' enabled flags. */
    method ValueChanged()
      modifies this
      ensures Synced()
    {
      text := DisplayText(settings.prependPlusSign, numberProperty.value);
      upEnabled := Below(numberProperty.value, settings.maxValue);
      downEnabled := Above(numberProperty.value, settings.minValue);
    }

    /**
     * Pressing up: while enabled, the value goes up by one and the linked
     * function runs. A disabled button does nothing. The value stays within
     * range.
     */
    method PressUp()
      requires Synced()
      modifies this, numberProperty
      ensures Synced()
      ensures numberProperty.value == old(numberProperty.value) + (if old(upEnabled) then 1 else 0)
      ensures InRange(settings, old(numberProperty.value)) ==> InRange(settings, numberProperty.value)
    {
      if upEnabled {
        if InRange(settings, numberProperty.value) {
          StepKeepsRange(settings, numberProperty.value);
        }
        numberProperty.value := numberProperty.value + 1;
        ValueChanged();
      }
    }

    /** Pressing down, as `PressUp` with the value going down by one. */
    method PressDown()
      requires Synced()
      modifies this, numberProperty
      ensures Synced()
      ensures numberProperty.value == old(numberProperty.value) - (if old(downEnabled) then 1 else 0)
      ensures InRange(settings, old(numberProperty.value)) ==> InRange(settings, numberProperty.value)
    {
      if downEnabled {
        if InRange(settings, numberProperty.value) {
          StepKeepsRange(settings, numberProperty.value);
        }
        numberProperty.value := numberProperty.value - 1;
        ValueChanged();
      }
    }
  }
}

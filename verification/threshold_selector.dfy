/**
 * The threshold inputs of `src/components/ThresholdSelector.js`: a change in
 * the input for one variable stores the typed text's `parseFloat` value,
 * or 0 when it does not parse.
 */
module ThresholdSelector {
  import opened JsValues
  import opened Decimal

  /** `{ ...prev, [variable]: isNaN(parseFloat(text)) ? 0 : parseFloat(text) }`. */
  function HandleChange(prev: map<string, JsNum>, variable: string, text: string): (next: map<string, JsNum>)
    ensures next.Keys == prev.Keys + {variable}
    ensures next[variable].Num?
    ensures forall k :: k in prev && k != variable ==> next[k] == prev[k]
  {
    prev[variable := Stored(text)]
  }

  /** `isNaN(parseFloat(text)) ? 0 : parseFloat(text)`. */
  function Stored(text: string): (x: JsNum)
    ensures x.Num?
    ensures ParseFloat(text).Num? ==> x == ParseFloat(text)
    ensures ParseFloat(text).NaN? ==> x == Num(0.0)
  {
    var parsed := ParseFloat(text);
    if parsed.NaN? then Num(0.0) else parsed
  }

  /**
   * The stored number is what `parseFloat` read when it read anything, and 0
   * exactly when it read nothing.
   */
  lemma StoredValue(prev: map<string, JsNum>, variable: string, text: string)
    ensures ParseFloat(text).Num? ==> HandleChange(prev, variable, text)[variable] == ParseFloat(text)
    ensures ScanDecimal(TrimStart(text)).None? ==> HandleChange(prev, variable, text)[variable] == Num(0.0)
  {
  }

  /** Typing an integer stores that integer; typing text that is not a number stores 0. */
  lemma StoredExamples(prev: map<string, JsNum>, variable: string, n: nat)
    ensures HandleChange(prev, variable, NatToString(n))[variable] == Num(n as real)
    ensures HandleChange(prev, variable, "")[variable] == Num(0.0)
    ensures HandleChange(prev, variable, "12px")[variable] == Num(12.0)
  {
    ParseFloatOfNatToString(n);
    ParseFloatAndNumberDiffer();
  }

  /** A second change to the same input replaces the first. */
  lemma LastChangeWins(prev: map<string, JsNum>, variable: string, first: string, second: string)
    ensures HandleChange(HandleChange(prev, variable, first), variable, second) == HandleChange(prev, variable, second)
  {
  }

  /** Changes to two different inputs commute. */
  lemma ChangesCommute(prev: map<string, JsNum>, v: string, w: string, s: string, t: string)
    requires v != w
    ensures HandleChange(HandleChange(prev, v, s), w, t) == HandleChange(HandleChange(prev, w, t), v, s)
  {
    UpdatesCommute(prev, v, Stored(s), w, Stored(t));
  }

  lemma UpdatesCommute(m: map<string, JsNum>, v: string, a: JsNum, w: string, b: JsNum)
    requires v != w
    ensures m[v := a][w := b] == m[w := b][v := a]
  {
    var l, r := m[v := a][w := b], m[w := b][v := a];
    assert l.Keys == r.Keys;
    assert forall k :: k in l ==> l[k] == r[k];
  }
}

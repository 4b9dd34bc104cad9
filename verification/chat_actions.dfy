/**
 The click strings the action bar under an assistant message hands to its
 click handler. Rendering itself is not modelled: an action is reduced to
 the strings its buttons emit, in the order the buttons appear.
 */
module ChatActions {
  import opened ChatTypes

  const SuggestPrefix: string := "suggest:"
  const ConfirmPrefix: string := "confirm:"
  const CancelPrefix: string := "cancel:"

  /** One `suggest:<item>` string per suggestion chip, in item order. */
  function SuggestionClicks(items: seq<string>): (r: seq<string>)
    ensures |r| == |items|
    ensures forall i :: 0 <= i < |items| ==> r[i] == SuggestPrefix + items[i]
  {
    if items == [] then [] else [SuggestPrefix + items[0]] + SuggestionClicks(items[1..])
  }

  /**
   The strings an action's buttons emit. A button emits its `action` field
   verbatim; a confirm emits `confirm:<title>` then `cancel:<title>`, its
   two labels being display text only.
   */
  function ClickStrings(a: Action): (r: seq<string>)
    ensures a.Button? ==> r == [a.action]
    ensures a.Suggestions? ==> |r| == |a.items| && forall i :: 0 <= i < |r| ==> r[i] == SuggestPrefix + a.items[i]
    ensures a.Confirm? ==> r == [ConfirmPrefix + a.title, CancelPrefix + a.title]
  {
    match a
    case Button(_, action, _) => [action]
    case Suggestions(items) => SuggestionClicks(items)
    case Confirm(title, _, _, _) => [ConfirmPrefix + title, CancelPrefix + title]
  }

  /**
   The action bar of a message: one group of click
   strings per entry of `actions.actions`, none dropped, none reordered.
   */
  function Render(acts: seq<Action>): (r: seq<seq<string>>)
    ensures |r| == |acts|
    ensures forall i :: 0 <= i < |r| ==> r[i] == ClickStrings(acts[i])
  {
    if acts == [] then [] else [ClickStrings(acts[0])] + Render(acts[1..])
  }

  /** Only a button's `action` and a confirm's `title` reach the click handler; labels and variants do not. */
  lemma DisplayFieldsDoNotReachHandler(a: Action, b: Action)
    requires (a.Button? && b.Button? && a.action == b.action)
          || (a.Confirm? && b.Confirm? && a.title == b.title)
    ensures ClickStrings(a) == ClickStrings(b)
  {
  }
}

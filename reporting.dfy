/** How login-app.mjs shows an error list: an error whose `options.widget`
    names an existing `err-<widget>` element is written into that element,
    every other message goes, in order, into the generic `#errors` list. */
module Reporting {
  import opened Wrappers
  import opened Utils

  /** The per-field error widgets of the login form: `err-loginId` and `err-pw`. */
  const LoginFormWidgets: set<string> := {"loginId", "pw"}

  /** The widget an error is routed to, if any: its `options.widget` must be
      truthy and an `err-<widget>` element must exist. */
  function WidgetOf(err: ErrorEntry, widgets: set<string>): Option<string> {
    if "widget" in err.options && err.options["widget"] != "" && err.options["widget"] in widgets
    then Some(err.options["widget"])
    else None
  }

  /** The messages that end up in the generic list, in input order. */
  function GenericMessages(es: seq<ErrorEntry>, widgets: set<string>): seq<string> {
    if es == [] then []
    else
      var last := es[|es| - 1];
      GenericMessages(es[..|es| - 1], widgets) + (if WidgetOf(last, widgets) == None then [last.message] else [])
  }

  /** The text a widget shows afterwards: cleared first, then overwritten by
      each error routed to it, so the last one remains. */
  function LastFor(es: seq<ErrorEntry>, widgets: set<string>, w: string): string {
    if es == [] then ""
    else if WidgetOf(es[|es| - 1], widgets) == Some(w) then es[|es| - 1].message
    else LastFor(es[..|es| - 1], widgets, w)
  }

  /** The text of every error widget afterwards. */
  function WidgetTexts(es: seq<ErrorEntry>, widgets: set<string>): map<string, string> {
    map w | w in widgets :: LastFor(es, widgets, w)
  }

  /** `msgs.map(m => '<li>' + m + '</li>').join('')`. */
  function ListItems(ms: seq<string>): (html: string)
    ensures html == "" <==> ms == []
  {
    if ms == [] then "" else "<li>" + ms[0] + "</li>" + ListItems(ms[1..])
  }

  /** Clears every error widget, routes each error, and renders the generic
      list. Returns the widgets' texts and the generic list's markup. */
  method ReportErrors(errors: seq<ErrorEntry>, widgets: set<string>)
    returns (widgetText: map<string, string>, listHtml: string)
    ensures widgetText.Keys == widgets
    ensures forall w :: w in widgets ==> widgetText[w] == LastFor(errors, widgets, w)
    ensures listHtml == ListItems(GenericMessages(errors, widgets))
  {
    widgetText := map w | w in widgets :: "";
    var genericMsgs: seq<string> := [];
    for i := 0 to |errors|
      invariant widgetText.Keys == widgets
      invariant forall w :: w in widgets ==> widgetText[w] == LastFor(errors[..i], widgets, w)
      invariant genericMsgs == GenericMessages(errors[..i], widgets)
    {
      assert errors[..i + 1][..i] == errors[..i];
      var err := errors[i];
      var target := WidgetOf(err, widgets);
      if target.Some? {
        widgetText := widgetText[target.value := err.message];
      } else {
        genericMsgs := genericMsgs + [err.message];
      }
    }
    assert errors[..|errors|] == errors;
    listHtml := ListItems(genericMsgs);
  }

  /** The generic list of a concatenation is the concatenation of the
      generic lists: routing keeps input order. */
  lemma {:induction false} GenericMessagesAppend(a: seq<ErrorEntry>, b: seq<ErrorEntry>, widgets: set<string>)
    ensures GenericMessages(a + b, widgets) == GenericMessages(a, widgets) + GenericMessages(b, widgets)
    decreases |b|
  {
    if b != [] {
      var b' := b[..|b| - 1];
      assert (a + b)[..|a + b| - 1] == a + b';
      assert (a + b)[|a + b| - 1] == b[|b| - 1];
      GenericMessagesAppend(a, b', widgets);
    } else {
      assert a + b == a;
    }
  }

  /** A message is in the generic list exactly when some error carrying it
      is not routed to a widget. */
  lemma {:induction false} GenericMessagesMembers(es: seq<ErrorEntry>, widgets: set<string>, m: string)
    ensures m in GenericMessages(es, widgets) <==>
      exists i :: 0 <= i < |es| && WidgetOf(es[i], widgets) == None && es[i].message == m
  {
    if es != [] {
      var init := es[..|es| - 1];
      GenericMessagesMembers(init, widgets, m);
      if m in GenericMessages(es, widgets) && m !in GenericMessages(init, widgets) {
        assert WidgetOf(es[|es| - 1], widgets) == None && es[|es| - 1].message == m;
      }
      if exists i :: 0 <= i < |es| && WidgetOf(es[i], widgets) == None && es[i].message == m {
        var i :| 0 <= i < |es| && WidgetOf(es[i], widgets) == None && es[i].message == m;
        if i < |es| - 1 {
          assert init[i] == es[i];
        }
      }
    }
  }

  /** The widget shows the message of the last error routed to it. */
  lemma {:induction false} LastRoutedErrorWins(es: seq<ErrorEntry>, widgets: set<string>, w: string, j: int)
    requires 0 <= j < |es| && WidgetOf(es[j], widgets) == Some(w)
    requires forall k :: j < k < |es| ==> WidgetOf(es[k], widgets) != Some(w)
    ensures LastFor(es, widgets, w) == es[j].message
  {
    if j < |es| - 1 {
      var init := es[..|es| - 1];
      assert init[j] == es[j];
      LastRoutedErrorWins(init, widgets, w, j);
    }
  }

  /** A widget no error is routed to is left cleared. */
  lemma {:induction false} UntargetedWidgetCleared(es: seq<ErrorEntry>, widgets: set<string>, w: string)
    requires forall k :: 0 <= k < |es| ==> WidgetOf(es[k], widgets) != Some(w)
    ensures LastFor(es, widgets, w) == ""
  {
    if es != [] {
      UntargetedWidgetCleared(es[..|es| - 1], widgets, w);
    }
  }
}

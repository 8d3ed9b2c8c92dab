/**
 The tray menu's message type: a closed two-variant enum, its display labels,
 the strict decoder for incoming menu ids, and the menu built from the variants.
 */
module TrayMessages {
  import opened Results

  datatype TrayMessage = Kill | ShowLogs

  /** The decoder's only error (strum's `ParseError::VariantNotFound`). */
  datatype ParseError = VariantNotFound

  /** The variants in declaration order, as the derived variant array lists them. */
  const Variants: seq<TrayMessage> := [Kill, ShowLogs]

  /** The label a variant is rendered as. */
  function Display(m: TrayMessage): (text: string)
    ensures |text| > 0
  {
    match m
    case Kill => "Kill"
    case ShowLogs => "Show Logs"
  }

  /**
   Strict decoder: a string decodes exactly when it is the label of some
   variant, and then to that variant; everything else is `VariantNotFound`,
   never a default variant.
   */
  function FromStr(s: string): (r: Result<TrayMessage, ParseError>)
    ensures r.Ok? ==> Display(r.value) == s
    ensures r.Err? ==> r.error == VariantNotFound && forall m :: Display(m) != s
  {
    if s == "Kill" then Ok(Kill)
    else if s == "Show Logs" then Ok(ShowLogs)
    else Err(VariantNotFound)
  }

  /** Distinct variants have distinct labels. */
  lemma DisplayInjective(m: TrayMessage, n: TrayMessage)
    ensures Display(m) == Display(n) ==> m == n
  {
  }

  /** Encoding then decoding gives back the variant. */
  lemma DecodeDisplay(m: TrayMessage)
    ensures FromStr(Display(m)) == Ok(m)
  {
  }

  /** Every variant is listed exactly once in `Variants`. */
  lemma VariantsEnumerate(m: TrayMessage)
    ensures m in Variants
    ensures forall i, j :: 0 <= i < j < |Variants| ==> Variants[i] != Variants[j]
  {
  }

  /** One item of the tray menu: its text, its id, and whether it is enabled. */
  datatype MenuItem = MenuItem(text: string, id: string, enabled: bool)

  /**
   The tray menu: one enabled item per variant, in variant order, whose text is
   the variant's label and whose id is the variant converted to a menu id (the
   tray library converts through the same `to_string`). Clicking any item
   therefore delivers an id that decodes back to that item's variant.
   */
  method BuildTrayMenu() returns (menu: seq<MenuItem>)
    ensures |menu| == |Variants|
    ensures forall i :: 0 <= i < |menu| ==>
              menu[i].text == Display(Variants[i]) && menu[i].enabled
    ensures forall i :: 0 <= i < |menu| ==> FromStr(menu[i].id) == Ok(Variants[i])
    ensures forall i, j :: 0 <= i < j < |menu| ==> menu[i].id != menu[j].id
  {
    menu := [];
    var k := 0;
    while k < |Variants|
      invariant 0 <= k <= |Variants|
      invariant |menu| == k
      invariant forall i :: 0 <= i < k ==>
                  menu[i].text == Display(Variants[i]) && menu[i].enabled
      invariant forall i :: 0 <= i < k ==> menu[i].id == Display(Variants[i])
    {
      var msg := Variants[k];
      menu := menu + [MenuItem(Display(msg), Display(msg), true)];
      k := k + 1;
    }
    forall i | 0 <= i < |menu|
      ensures FromStr(menu[i].id) == Ok(Variants[i])
    {
      DecodeDisplay(Variants[i]);
    }
  }
}

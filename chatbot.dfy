/** The chat assistant: `getBotResponse(msg)` looks for the first lookup key
    the (lower-cased) message mentions and offers that product, with buy
    wording when the message shows a buying intent; otherwise it answers
    help or catalogue questions or falls back to a default hint. */
module Chatbot {
  import opened Common
  import opened Text
  import opened Catalog
  import opened PriceFormat

  const BuyKeywords: seq<string> := ["buy", "purchase", "where to buy", "i want", "order", "get"]

  const HelpText: string :=
    "I can help you find student gear" + " and direct you to marketplaces (Amazon/Flipkart). Ask me about any product or branch."
  const CatalogText: string :=
    "Tell me a branch" + " (CSE, ECE, MECH, CIVIL, EEE, AI, BIO, CHEM, IS, AUTO) or mention a product name and I will help you find it."
  const DefaultText: string :=
    "I'm here to help" + " — mention a product name or say 'buy' followed by the product and I'll show options."

  /** A reply with a Buy button for a product, or plain text. */
  datatype BotReply = ProductReply(text: string, product: nat) | TextReply(text: string)

  function BuyText(name: string): string
  {
    "I found \"" + name + "\" — I can open marketplace options for you. Click Buy to continue."
  }

  function InfoText(p: Product): string
  {
    "\"" + p.name + "\": " + p.description + " — Price: ₹" + FormatInr(p.price) + ". Want to buy?"
  }

  /** `Object.keys(PRODUCT_LOOKUP).find(key => msg.includes(key))`. */
  function FirstMentioned(keys: seq<string>, msg: string): (r: Option<nat>)
    ensures r.None? <==> forall i :: 0 <= i < |keys| ==> !Contains(msg, keys[i])
    ensures r.Some? ==> r.value < |keys| && Contains(msg, keys[r.value])
    ensures r.Some? ==> forall j :: 0 <= j < r.value ==> !Contains(msg, keys[j])
  {
    if keys == [] then None
    else if Contains(msg, keys[0]) then Some(0)
    else
      match FirstMentioned(keys[1..], msg)
      case None => None
      case Some(i) => Some(i + 1)
  }

  /** `buyKeywords.some(k => msg.includes(k))`. */
  predicate BuyIntent(msg: string)
  {
    exists i :: 0 <= i < |BuyKeywords| && Contains(msg, BuyKeywords[i])
  }

  /** Key `i` is mentioned and no earlier key is. */
  predicate FirstAt(keys: seq<string>, msg: string, i: nat)
    requires i < |keys|
  {
    Contains(msg, keys[i]) && forall j :: 0 <= j < i ==> !Contains(msg, keys[j])
  }

  predicate HelpAsked(msg: string)
  {
    Contains(msg, "help") || Contains(msg, "how")
  }

  predicate CatalogAsked(msg: string)
  {
    Contains(msg, "catalog") || Contains(msg, "products") || Contains(msg, "list")
  }

  /** The product key the reply is about: the first mentioned key, unless
      that key is the falsy empty string. */
  function OfferedKey(l: Lookup, msg: string): (r: Option<string>)
    ensures r.Some? ==> r.value in l.keys && r.value != "" && Contains(msg, r.value)
    ensures r.Some? <==> exists i :: 0 <= i < |l.keys| && FirstAt(l.keys, msg, i) && l.keys[i] != ""
  {
    match FirstMentioned(l.keys, msg)
    case None => None
    case Some(i) =>
      assert forall i' :: 0 <= i' < i ==> !Contains(msg, l.keys[i']);
      if l.keys[i] == "" then
        assert forall i' :: 0 <= i' < |l.keys| && Contains(msg, l.keys[i']) ==> i' >= i;
        assert forall i' :: 0 <= i' < |l.keys| && Contains(msg, l.keys[i']) && i' > i ==> Contains(msg, l.keys[i]);
        None
      else Some(l.keys[i])
  }

  /** `getBotResponse(msg)`. */
  function GetBotResponse(ps: seq<Product>, l: Lookup, msg: string): (r: BotReply)
    requires ValidLookup(l) && forall k :: k in l.table ==> l.table[k] < |ps|
    ensures r.ProductReply? <==> OfferedKey(l, msg).Some?
    ensures r.ProductReply? ==> r.product == l.table[OfferedKey(l, msg).value]
    ensures r.ProductReply? ==>
      (r.text == BuyText(ps[r.product].name) <==> BuyIntent(msg))
      && (!BuyIntent(msg) ==> r.text == InfoText(ps[r.product]))
    ensures r.TextReply? ==> (r.text == HelpText <==> HelpAsked(msg))
    ensures r.TextReply? ==> (r.text == CatalogText <==> !HelpAsked(msg) && CatalogAsked(msg))
    ensures r.TextReply? ==> (r.text == DefaultText <==> !HelpAsked(msg) && !CatalogAsked(msg))
  {
    match OfferedKey(l, msg)
    case Some(k) =>
      var id := l.table[k];
      if BuyIntent(msg) then ProductReply(BuyText(ps[id].name), id)
      else
        assert InfoText(ps[id])[0] != BuyText(ps[id].name)[0];
        ProductReply(InfoText(ps[id]), id)
    case None =>
      assert HelpText[0] == 'I' && CatalogText[0] == 'T' && DefaultText[0] == 'I';
      assert HelpText[1] == ' ' && DefaultText[1] == '\'';
      if HelpAsked(msg) then TextReply(HelpText)
      else if CatalogAsked(msg) then TextReply(CatalogText)
      else TextReply(DefaultText)
  }

  /** `sendMessage()`: a blank input sends nothing; otherwise the trimmed,
      lower-cased message is answered. */
  function SendMessage(ps: seq<Product>, l: Lookup, input: string): (r: Option<BotReply>)
    requires ValidLookup(l) && forall k :: k in l.table ==> l.table[k] < |ps|
    ensures r.None? <==> AllSpace(input)
    ensures r.Some? ==> r.value == GetBotResponse(ps, l, ToLower(Trim(input)))
  {
    var msg := Trim(input);
    if msg == [] then None else Some(GetBotResponse(ps, l, ToLower(msg)))
  }

  /** `sendQuickReply(text)`: the quick buttons skip the trim. */
  function QuickReply(ps: seq<Product>, l: Lookup, text: string): (r: BotReply)
    requires ValidLookup(l) && forall k :: k in l.table ==> l.table[k] < |ps|
    ensures r == GetBotResponse(ps, l, ToLower(text))
  {
    GetBotResponse(ps, l, ToLower(text))
  }

  /** A quick-reply text that is already trimmed and not empty gets the same
      reply as the same text typed into the message box. */
  lemma QuickReplyAsTyped(ps: seq<Product>, l: Lookup, text: string)
    requires ValidLookup(l) && forall k :: k in l.table ==> l.table[k] < |ps|
    requires text != "" && Trim(text) == text
    ensures SendMessage(ps, l, text) == Some(QuickReply(ps, l, text))
  {
  }

  /** A blank quick-reply text, which typed into the message box would send
      nothing, gets the default hint, as long as no non-empty lookup key is
      blank itself. */
  lemma BlankQuickReply(ps: seq<Product>, l: Lookup, text: string)
    requires ValidLookup(l) && forall k :: k in l.table ==> l.table[k] < |ps|
    requires AllSpace(text)
    requires forall k :: k in l.table && k != "" ==> !AllSpace(k)
    ensures SendMessage(ps, l, text) == None
    ensures QuickReply(ps, l, text) == TextReply(DefaultText)
  {
    var msg := ToLower(text);
    forall i | 0 <= i < |msg| ensures IsSpace(msg[i]) {
      LowerKeepsSpaces(text[i]);
    }
    var o := OfferedKey(l, msg);
    if o.Some? {
      BlankContainsBlank(msg, o.value);
    }
    assert !IsSpace("help"[0]) && !IsSpace("how"[0]) && !IsSpace("catalog"[0]);
    assert !IsSpace("products"[0]) && !IsSpace("list"[0]);
    if HelpAsked(msg) || CatalogAsked(msg) {
      if Contains(msg, "help") { BlankContainsBlank(msg, "help"); }
      if Contains(msg, "how") { BlankContainsBlank(msg, "how"); }
      if Contains(msg, "catalog") { BlankContainsBlank(msg, "catalog"); }
      if Contains(msg, "products") { BlankContainsBlank(msg, "products"); }
      if Contains(msg, "list") { BlankContainsBlank(msg, "list"); }
    }
  }

  /** A message that mentions no key of the lookup never gets a product. */
  lemma NoKeyNoProduct(ps: seq<Product>, l: Lookup, msg: string)
    requires ValidLookup(l) && forall k :: k in l.table ==> l.table[k] < |ps|
    requires forall k :: k in l.table ==> !Contains(msg, k)
    ensures GetBotResponse(ps, l, msg).TextReply?
  {
  }

  /** When the first key in lookup order that the message mentions is `k`,
      the reply offers the product `k` leads to. */
  lemma FirstKeyWins(ps: seq<Product>, l: Lookup, msg: string, i: nat)
    requires ValidLookup(l) && forall k :: k in l.table ==> l.table[k] < |ps|
    requires i < |l.keys| && l.keys[i] != "" && Contains(msg, l.keys[i])
    requires forall j :: 0 <= j < i ==> !Contains(msg, l.keys[j])
    ensures GetBotResponse(ps, l, msg).ProductReply?
    ensures GetBotResponse(ps, l, msg).product == l.table[l.keys[i]]
  {
    var f := FirstMentioned(l.keys, msg);
    assert f == Some(i);
  }
}

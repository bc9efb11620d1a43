/** The electronics-shop chat bot: the catalogue rendered as text, the
    instructions built around it, and the chat history kept per session. */
module ShopBot {
  import opened Wrappers
  import opened Strings

  // ---------------------------------------------------------------------------
  // Shop configuration
  // ---------------------------------------------------------------------------

  datatype Product = Product(name: string, price: string)

  datatype ShopInfo = ShopInfo(name: string, address: string, timings: string, products: seq<Product>)

  const Shop: ShopInfo := ShopInfo(
    "Ali's Electronics",
    "Main Bazar, Lahore",
    "Mon-Sat, 10am - 8pm",
    [ Product("LED TV 42 inch", "Rs 55,000"),
      Product("Bluetooth Speaker", "Rs 4,500"),
      Product("Smartphone XYZ", "Rs 75,000") ])

  // ---------------------------------------------------------------------------
  // product_list_text
  // ---------------------------------------------------------------------------

  /** One catalogue line: `- <name> : <price>`. */
  function ProductLine(p: Product): string
  {
    "- " + p.name + " : " + p.price
  }

  /** The list comprehension: one line per product, in catalogue order. */
  function ProductLines(products: seq<Product>): (lines: seq<string>)
    ensures |lines| == |products|
    ensures forall k | 0 <= k < |products| :: lines[k] == ProductLine(products[k])
  {
    if products == [] then [] else [ProductLine(products[0])] + ProductLines(products[1..])
  }

  /** `"\n".join(...)` of the product lines. */
  function ProductListText(products: seq<Product>): string
  {
    Join(ProductLines(products), "\n")
  }

  /** Neither field of the product holds a line break. */
  predicate SingleLine(p: Product)
  {
    '\n' !in p.name && '\n' !in p.price
  }

  lemma ProductLineIsSingleLine(p: Product)
    requires SingleLine(p)
    ensures '\n' !in ProductLine(p)
  {
  }

  /** Reading the text back line by line gives exactly the product lines, in
      catalogue order; an empty catalogue renders as the empty string. */
  lemma ProductListTextLines(products: seq<Product>)
    requires forall k | 0 <= k < |products| :: SingleLine(products[k])
    ensures products == [] ==> ProductListText(products) == ""
    ensures products != [] ==> Split(ProductListText(products), '\n') == ProductLines(products)
  {
    if products != [] {
      forall k | 0 <= k < |products|
        ensures '\n' !in ProductLines(products)[k]
      {
        ProductLineIsSingleLine(products[k]);
      }
      SplitJoin(ProductLines(products), '\n');
    }
  }

  /** n products are joined by exactly n - 1 line breaks, on top of those the
      names and prices hold themselves: there is no trailing newline. */
  lemma ProductListTextNewlines(products: seq<Product>)
    requires products != []
    ensures CountChar(ProductListText(products), '\n') ==
      |products| - 1 + CountCharEach(ProductLines(products), '\n')
  {
    JoinCount(ProductLines(products), '\n');
  }

  /** With single-line names and prices, the line breaks are the n - 1 separators. */
  lemma ProductListTextSeparators(products: seq<Product>)
    requires products != []
    requires forall k | 0 <= k < |products| :: SingleLine(products[k])
    ensures CountChar(ProductListText(products), '\n') == |products| - 1
  {
    forall k | 0 <= k < |products|
      ensures '\n' !in ProductLines(products)[k]
    {
      ProductLineIsSingleLine(products[k]);
    }
    CountCharEachAbsent(ProductLines(products), '\n');
    ProductListTextNewlines(products);
  }

  /** Every product's line occurs in the text. */
  lemma ProductListTextHasEveryProduct(products: seq<Product>, k: int)
    requires 0 <= k < |products|
    ensures Contains(ProductListText(products), ProductLine(products[k]))
  {
    JoinContains(ProductLines(products), "\n", k);
  }

  /** The shop's own catalogue renders as three lines, one per product. */
  lemma ShopCatalogueLines()
    ensures Split(ProductListText(Shop.products), '\n') ==
      [ProductLine(Shop.products[0]), ProductLine(Shop.products[1]), ProductLine(Shop.products[2])]
  {
    ShopProductsAreSingleLine();
    ProductListTextLines(Shop.products);
  }

  lemma ShopProductsAreSingleLine()
    ensures forall k | 0 <= k < |Shop.products| :: SingleLine(Shop.products[k])
  {
    TvIsSingleLine();
    SpeakerIsSingleLine();
    PhoneIsSingleLine();
  }

  lemma TvIsSingleLine()
    ensures SingleLine(Product("LED TV 42 inch", "Rs 55,000"))
  {
  }

  lemma SpeakerIsSingleLine()
    ensures SingleLine(Product("Bluetooth Speaker", "Rs 4,500"))
  {
  }

  lemma PhoneIsSingleLine()
    ensures SingleLine(Product("Smartphone XYZ", "Rs 75,000"))
  {
  }

  // ---------------------------------------------------------------------------
  // agent_instructions
  // ---------------------------------------------------------------------------

  /** The rules paragraph closing the instructions, line by line. */
  const RulesBlock: string :=
    "Rules:\n" +
    "- Always answer politely and with a friendly tone.\n" +
    "- Remember previous user questions in this conversation and use them for context.\n" +
    "- If the user says 'price?' or 'what's the cost?' without naming a product,\n" +
    "  give the price for the product they last mentioned.\n" +
    "- If the user asks about something we don't sell, politely say we don't have it.\n"

  /** The instruction template, with the shop's fields and the product text filled in. */
  function AgentInstructions(shop: ShopInfo): string
  {
    "\nYou are a friendly customer service agent for " + shop.name +
    ".\n\nShop details:\nAddress: " + shop.address +
    "\nTimings: " + shop.timings +
    "\nProducts & Prices:\n" + ProductListText(shop.products) +
    "\n\n" + RulesBlock
  }

  /** The instructions carry the shop's name, address, timings, the whole
      product text and so every product's line, each verbatim. */
  lemma AgentInstructionsEmbedShop(shop: ShopInfo)
    ensures var text := AgentInstructions(shop);
      Contains(text, shop.name) && Contains(text, shop.address) && Contains(text, shop.timings) &&
      Contains(text, ProductListText(shop.products))
    ensures forall k | 0 <= k < |shop.products| ::
      Contains(AgentInstructions(shop), ProductLine(shop.products[k]))
  {
    ContainsItself(shop.name);
    ContainsItself(shop.address);
    ContainsItself(shop.timings);
    ContainsItself(ProductListText(shop.products));
    KeptFromName(shop, shop.name);
    KeptFromAddress(shop, shop.address);
    KeptFromTimings(shop, shop.timings);
    KeptFromProducts(shop, ProductListText(shop.products));
    forall k | 0 <= k < |shop.products|
      ensures Contains(AgentInstructions(shop), ProductLine(shop.products[k]))
    {
      ProductListTextHasEveryProduct(shop.products, k);
      KeptFromProducts(shop, ProductLine(shop.products[k]));
    }
  }

  // Each of the four lemmas below takes what occurs in one inserted field
  // through the rest of the template.

  lemma KeptFromName(shop: ShopInfo, t: string)
    requires Contains(shop.name, t)
    ensures Contains(AgentInstructions(shop), t)
  {
    var before := "\nYou are a friendly customer service agent for ";
    ContainsAfterPrefix(before, shop.name, t);
    ContainsBeforeSuffix(before + shop.name, ".\n\nShop details:\nAddress: ", t);
    ContainsBeforeSuffix(before + shop.name + ".\n\nShop details:\nAddress: ", shop.address, t);
    KeptFromAddress(shop, t);
  }

  lemma KeptFromAddress(shop: ShopInfo, t: string)
    requires Contains(shop.address, t) ||
      Contains("\nYou are a friendly customer service agent for " + shop.name + ".\n\nShop details:\nAddress: " + shop.address, t)
    ensures Contains(AgentInstructions(shop), t)
  {
    var before := "\nYou are a friendly customer service agent for " + shop.name + ".\n\nShop details:\nAddress: ";
    if Contains(shop.address, t) {
      ContainsAfterPrefix(before, shop.address, t);
    }
    ContainsBeforeSuffix(before + shop.address, "\nTimings: ", t);
    ContainsBeforeSuffix(before + shop.address + "\nTimings: ", shop.timings, t);
    KeptFromTimings(shop, t);
  }

  lemma KeptFromTimings(shop: ShopInfo, t: string)
    requires Contains(shop.timings, t) ||
      Contains("\nYou are a friendly customer service agent for " + shop.name + ".\n\nShop details:\nAddress: " + shop.address +
        "\nTimings: " + shop.timings, t)
    ensures Contains(AgentInstructions(shop), t)
  {
    var before := "\nYou are a friendly customer service agent for " + shop.name + ".\n\nShop details:\nAddress: " + shop.address +
      "\nTimings: ";
    if Contains(shop.timings, t) {
      ContainsAfterPrefix(before, shop.timings, t);
    }
    ContainsBeforeSuffix(before + shop.timings, "\nProducts & Prices:\n", t);
    ContainsBeforeSuffix(before + shop.timings + "\nProducts & Prices:\n", ProductListText(shop.products), t);
    KeptFromProducts(shop, t);
  }

  lemma KeptFromProducts(shop: ShopInfo, t: string)
    requires Contains(ProductListText(shop.products), t) ||
      Contains("\nYou are a friendly customer service agent for " + shop.name + ".\n\nShop details:\nAddress: " + shop.address +
        "\nTimings: " + shop.timings + "\nProducts & Prices:\n" + ProductListText(shop.products), t)
    ensures Contains(AgentInstructions(shop), t)
  {
    var before := "\nYou are a friendly customer service agent for " + shop.name + ".\n\nShop details:\nAddress: " + shop.address +
      "\nTimings: " + shop.timings + "\nProducts & Prices:\n";
    if Contains(ProductListText(shop.products), t) {
      ContainsAfterPrefix(before, ProductListText(shop.products), t);
    }
    ContainsBeforeSuffix(before + ProductListText(shop.products), "\n\n", t);
    ContainsBeforeSuffix(before + ProductListText(shop.products) + "\n\n", RulesBlock, t);
  }

  // ---------------------------------------------------------------------------
  // The chat session
  // ---------------------------------------------------------------------------

  /** The greeting sent when a chat starts. */
  function WelcomeMessage(shop: ShopInfo): string
  {
    "\U{1F44B} Hello! Welcome to " + shop.name + ".\nHow can I help you today?"
  }

  lemma WelcomeNamesShop(shop: ShopInfo)
    ensures Contains(WelcomeMessage(shop), shop.name)
  {
    ContainsInfix("\U{1F44B} Hello! Welcome to ", shop.name, ".\nHow can I help you today?");
  }

  datatype Role = User | Assistant

  /** One history entry: `{"role": ..., "content": ...}`. */
  datatype Turn = Turn(role: Role, content: string)

  /** The history entries alternate user, assistant, user, ... and end with an
      assistant turn. */
  predicate Alternating(history: seq<Turn>)
  {
    |history| % 2 == 0 &&
    forall i | 0 <= i < |history| :: history[i].role == (if i % 2 == 0 then User else Assistant)
  }

  /** The history after the given messages, each answered by `run` on the
      history up to and including the message. */
  function Replay(run: seq<Turn> -> string, messages: seq<string>): seq<Turn>
  {
    if messages == [] then []
    else
      var asked := Replay(run, messages[..|messages| - 1]) + [Turn(User, messages[|messages| - 1])];
      asked + [Turn(Assistant, run(asked))]
  }

  /** The reply to message i: the model run on the history replayed up to and
      including that message. */
  function ReplyTo(run: seq<Turn> -> string, messages: seq<string>, i: int): string
    requires 0 <= i < |messages|
  {
    run(Replay(run, messages[..i]) + [Turn(User, messages[i])])
  }

  /** One more message adds the user turn and the reply to it, and nothing else. */
  lemma ReplayStep(run: seq<Turn> -> string, messages: seq<string>, content: string)
    ensures var asked := Replay(run, messages) + [Turn(User, content)];
      Replay(run, messages + [content]) == asked + [Turn(Assistant, run(asked))]
  {
    assert (messages + [content])[..|messages|] == messages;
  }

  /** Two entries per message. */
  lemma {:induction false} ReplayLength(run: seq<Turn> -> string, messages: seq<string>)
    ensures |Replay(run, messages)| == 2 * |messages|
  {
    if messages != [] {
      ReplayLength(run, messages[..|messages| - 1]);
    }
  }

  /** History is append-only: replaying more messages keeps every earlier entry
      in place. */
  lemma {:induction false} ReplayExtends(run: seq<Turn> -> string, messages: seq<string>, m: int)
    requires 0 <= m <= |messages|
    ensures Replay(run, messages[..m]) <= Replay(run, messages)
  {
    if m < |messages| {
      var n := |messages| - 1;
      ReplayExtends(run, messages[..n], m);
      assert messages[..n][..m] == messages[..m];
    } else {
      assert messages[..m] == messages;
    }
  }

  /** Entry 2i is the i-th message from the user, entry 2i+1 the reply the model
      gave to the history that ends with it. */
  lemma ReplayEntries(run: seq<Turn> -> string, messages: seq<string>, i: int)
    requires 0 <= i < |messages|
    ensures |Replay(run, messages)| == 2 * |messages|
    ensures Replay(run, messages)[2 * i] == Turn(User, messages[i])
    ensures Replay(run, messages)[2 * i + 1] ==
      Turn(Assistant, ReplyTo(run, messages, i))
  {
    ReplayLength(run, messages);
    ReplayLength(run, messages[..i]);
    ReplayExtends(run, messages, i + 1);
    ReplayStep(run, messages[..i], messages[i]);
    assert messages[..i] + [messages[i]] == messages[..i + 1];
  }

  /** A replayed history alternates user and assistant turns. */
  lemma ReplayAlternates(run: seq<Turn> -> string, messages: seq<string>)
    ensures Alternating(Replay(run, messages))
  {
    var h := Replay(run, messages);
    ReplayLength(run, messages);
    forall i | 0 <= i < |h|
      ensures h[i].role == (if i % 2 == 0 then User else Assistant)
    {
      ReplayEntries(run, messages, i / 2);
    }
  }

  /** The Chainlit session: the history list it keeps between messages. */
  class ChatSession {
    var history: seq<Turn>

    /** A session before any chat has started holds no history. */
    constructor ()
      ensures history == []
    {
      history := [];
    }

    /** `handle_chat_start`: reset the history and greet the user. */
    method HandleChatStart(shop: ShopInfo) returns (greeting: string)
      modifies this
      ensures history == []
      ensures greeting == WelcomeMessage(shop)
    {
      history := [];
      greeting := WelcomeMessage(shop);
    }

    /** `handle_message`: append the user turn, run the model on the history
        including it, append the reply and send it. `run` stands for the model
        call: `Some(final_output)` when it returns, `None` when it raises, in
        which case the handler stops with the user turn already stored. */
    method HandleMessage(content: string, run: seq<Turn> -> Option<string>) returns (reply: Option<string>)
      modifies this
      ensures reply == run(old(history) + [Turn(User, content)])
      ensures reply.Some? ==> history == old(history) + [Turn(User, content), Turn(Assistant, reply.value)]
      ensures reply.None? ==> history == old(history) + [Turn(User, content)]
      ensures Alternating(old(history)) ==> (Alternating(history) <==> reply.Some?)
    {
      history := history + [Turn(User, content)];
      reply := run(history);
      if reply.Some? {
        history := history + [Turn(Assistant, reply.value)];
      }
    }
  }

  /** A chat as the event loop drives it: the chat starts, then every message
      is handled in order and answered by `run`. The session's history is the
      replayed history of those messages. */
  method Converse(shop: ShopInfo, run: seq<Turn> -> string, messages: seq<string>)
    returns (session: ChatSession, replies: seq<string>)
    ensures session.history == Replay(run, messages)
    ensures |replies| == |messages|
    ensures forall i | 0 <= i < |messages| :: replies[i] == ReplyTo(run, messages, i)
  {
    session := new ChatSession();
    var greeting := session.HandleChatStart(shop);
    replies := [];
    var i := 0;
    while i < |messages|
      invariant 0 <= i <= |messages|
      invariant session.history == Replay(run, messages[..i])
      invariant |replies| == i
      invariant forall j | 0 <= j < i :: replies[j] == ReplyTo(run, messages, j)
    {
      var asked := Replay(run, messages[..i]) + [Turn(User, messages[i])];
      var reply := session.HandleMessage(messages[i], h => Some(run(h)));
      assert reply == Some(ReplyTo(run, messages, i));
      ReplayStep(run, messages[..i], messages[i]);
      assert messages[..i + 1] == messages[..i] + [messages[i]];
      replies := replies + [reply.value];
      i := i + 1;
    }
    assert messages[..i] == messages;
  }
}

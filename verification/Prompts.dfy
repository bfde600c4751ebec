/**
 The system-prompt composer (`getSystemPrompt` in lib/ai/prompts.ts): the
 fixed policy text, then the addendum for the customer's sentiment, then,
 when an email is known, a block identifying the customer.
 */
module Prompts {
  import opened JsBuiltins
  import opened Sentiment

  /** The optional fields of the prompt context; a missing sentiment means `neutral`. */
  datatype PromptContext = PromptContext(
    sentiment: Option<Label>,
    customerEmail: Option<string>,
    conversationId: Option<string>)

  /** The role and policy text every prompt starts with. */
  const BasePrompt: string :=
    "You are a helpful and empathetic customer support AI assistant for TechCorp, an e-commerce company selling electronics and gadgets.\n" +
    "\n" +
    "## Your Role and Capabilities\n" +
    "\n" +
    "You help customers with:\n" +
    "- Product information and recommendations\n" +
    "- Order tracking and status updates\n" +
    "- Returns, refunds, and exchanges\n" +
    "- Technical support for products\n" +
    "- Account and billing questions\n" +
    "- General inquiries about policies and procedures\n" +
    "\n" +
    "## Guidelines\n" +
    "\n" +
    "1. **Be Empathetic and Professional**\n" +
    "   - Always acknowledge the customer's feelings\n" +
    "   - Use a warm, friendly tone while remaining professional\n" +
    "   - Thank customers for their patience and understanding\n" +
    "\n" +
    "2. **Be Clear and Concise**\n" +
    "   - Provide specific, actionable information\n" +
    "   - Break down complex answers into simple steps\n" +
    "   - Use bullet points for multiple items when appropriate\n" +
    "\n" +
    "3. **Use Available Tools**\n" +
    "   - Search the knowledge base before providing information\n" +
    "   - Create tickets for issues requiring human intervention\n" +
    "   - Use get_order_status for order-related questions\n" +
    "   - Transfer to human agents when necessary\n" +
    "\n" +
    "4. **Know When to Escalate**\n" +
    "   - Complex technical issues beyond basic troubleshooting\n" +
    "   - Billing disputes or refund requests over $100\n" +
    "   - Legal or compliance questions\n" +
    "   - Angry or highly frustrated customers (after attempting to help)\n" +
    "   - When customer explicitly requests a human\n" +
    "\n" +
    "5. **Data Privacy**\n" +
    "   - Never ask for sensitive information like full credit card numbers or passwords\n" +
    "   - Verify customer identity using email before discussing account details\n" +
    "   - Remind customers not to share sensitive data in chat\n" +
    "\n" +
    "6. **Brand Voice**\n" +
    "   - Friendly but not overly casual\n" +
    "   - Helpful without being condescending\n" +
    "   - Proactive in offering solutions\n" +
    "   - Honest about limitations\n" +
    "\n" +
    "## Company Policies (Quick Reference)\n" +
    "\n" +
    "- **Returns**: 30-day return policy on most items\n" +
    "- **Shipping**: Free shipping on orders over $50\n" +
    "- **Warranty**: 1-year manufacturer warranty on all electronics\n" +
    "- **Support Hours**: Human agents available 9 AM - 9 PM EST, Mon-Fri\n" +
    "- **Response Time**: Tickets answered within 24 hours (priority tickets within 4 hours)"

  const FrustratedAddition: string :=
    "\n\n## IMPORTANT: Customer Sentiment Alert\n" +
    "The customer appears frustrated or upset. Take extra care to:\n" +
    "- Acknowledge their frustration immediately\n" +
    "- Apologize for any inconvenience\n" +
    "- Offer solutions quickly and clearly\n" +
    "- Consider escalating to a human agent if frustration continues\n" +
    "- Be extra patient and empathetic"

  const NegativeAddition: string :=
    "\n\n## Customer Sentiment Note\n" +
    "The customer seems dissatisfied. Focus on:\n" +
    "- Understanding the root cause of their issue\n" +
    "- Providing clear solutions\n" +
    "- Following up to ensure resolution"

  const PositiveAddition: string :=
    "\n\n## Customer Sentiment Note\n" +
    "The customer seems satisfied. Maintain the positive experience by being helpful and efficient."

  /** The addendum for each sentiment; `neutral` adds nothing. */
  function SentimentAddition(sentiment: Label): string
  {
    match sentiment
    case Frustrated => FrustratedAddition
    case Negative => NegativeAddition
    case Positive => PositiveAddition
    case Neutral => ""
  }

  const EmailBlockHead: string := "\n\n## Customer Information\nEmail: "
  const EmailBlockTail: string := "\n(Use this for order lookups and ticket creation)"

  /** The identity block, with the email inserted verbatim. */
  function EmailBlock(email: string): string
  {
    EmailBlockHead + email + EmailBlockTail
  }

  /** `if (customerEmail)`: present and not the empty string. */
  predicate HasEmail(ctx: PromptContext)
  {
    ctx.customerEmail.Some? && ctx.customerEmail.value != ""
  }

  /** The sentiment after defaulting: a missing one is `neutral`. */
  function EffectiveSentiment(ctx: PromptContext): Label
  {
    if ctx.sentiment.Some? then ctx.sentiment.value else Neutral
  }

  /** The composition in its fixed order, for any policy text `base`. */
  function Compose(base: string, ctx: PromptContext): (prompt: string)
    ensures |prompt| >= |base| && prompt[..|base|] == base
  {
    var withSentiment := base + SentimentAddition(EffectiveSentiment(ctx));
    if HasEmail(ctx) then withSentiment + EmailBlock(ctx.customerEmail.value) else withSentiment
  }

  /** `getSystemPrompt(context)`: the composition over the fixed policy text. */
  function GetSystemPrompt(ctx: PromptContext): (prompt: string)
    ensures |prompt| >= |BasePrompt| && prompt[..|BasePrompt|] == BasePrompt
  {
    Compose(BasePrompt, ctx)
  }

  // ---------------------------------------------------------------------------
  // Properties, stated for every policy text
  // ---------------------------------------------------------------------------

  /** Base text first, then the sentiment addendum, then the identity block if any. */
  lemma ComposeOrder(base: string, ctx: PromptContext)
    ensures !HasEmail(ctx) ==> Compose(base, ctx) == base + SentimentAddition(EffectiveSentiment(ctx))
    ensures HasEmail(ctx) ==>
      Compose(base, ctx) == base + SentimentAddition(EffectiveSentiment(ctx)) + EmailBlock(ctx.customerEmail.value)
  {
  }

  /** Leaving the sentiment out is the same as passing `neutral`. */
  lemma MissingSentimentIsNeutral(base: string, ctx: PromptContext)
    requires ctx.sentiment.None?
    ensures Compose(base, ctx) == Compose(base, ctx.(sentiment := Some(Neutral)))
  {
  }

  /** The conversation identifier never influences the prompt. */
  lemma ConversationIdIgnored(base: string, ctx: PromptContext, id: Option<string>)
    ensures Compose(base, ctx.(conversationId := id)) == Compose(base, ctx)
  {
  }

  /** With neutral sentiment and no email the prompt is the policy text alone. */
  lemma NeutralWithoutEmailIsBase(base: string, ctx: PromptContext)
    requires EffectiveSentiment(ctx) == Neutral && !HasEmail(ctx)
    ensures Compose(base, ctx) == base
  {
  }

  /**
   `neutral` adds nothing; the three other addenda are non-empty and
   pairwise different.
   */
  lemma AdditionsDistinct()
    ensures SentimentAddition(Neutral) == ""
    ensures |SentimentAddition(Frustrated)| > 0 && |SentimentAddition(Negative)| > 0
      && |SentimentAddition(Positive)| > 0
    ensures forall a: Label, b: Label :: a != b ==> SentimentAddition(a) != SentimentAddition(b)
  {
    assert |FrustratedAddition| == 316;
    assert |NegativeAddition| == 181;
    assert |PositiveAddition| == 123;
  }

  /**
   With a non-empty email the prompt is the email-less prompt followed by the
   identity block, and the email appears in it verbatim.
   */
  lemma EmailBlockIsSuffix(base: string, ctx: PromptContext)
    requires HasEmail(ctx)
    ensures Compose(base, ctx) == Compose(base, ctx.(customerEmail := None)) + EmailBlock(ctx.customerEmail.value)
    ensures Contains(Compose(base, ctx), ctx.customerEmail.value)
  {
    var email := ctx.customerEmail.value;
    var withSentiment := base + SentimentAddition(EffectiveSentiment(ctx));
    assert Compose(base, ctx.(customerEmail := None)) == withSentiment;
    assert Compose(base, ctx) == withSentiment + EmailBlock(email);
    EmailInBlock(withSentiment, email);
  }

  lemma EmailInBlock(prefix: string, email: string)
    ensures Contains(prefix + EmailBlock(email), email)
  {
    var before := prefix + EmailBlockHead;
    var whole := prefix + EmailBlock(email);
    assert whole == before + email + EmailBlockTail;
    assert whole[|before|..|before| + |email|] == email;
    ContainsAt(whole, email, |before|);
  }

  /** A prompt determines the sentiment it was built for. */
  lemma PromptDeterminesSentiment(base: string, ctx1: PromptContext, ctx2: PromptContext)
    requires ctx1.customerEmail == ctx2.customerEmail
    requires Compose(base, ctx1) == Compose(base, ctx2)
    ensures EffectiveSentiment(ctx1) == EffectiveSentiment(ctx2)
  {
    var a1 := SentimentAddition(EffectiveSentiment(ctx1));
    var a2 := SentimentAddition(EffectiveSentiment(ctx2));
    var tail := if HasEmail(ctx1) then EmailBlock(ctx1.customerEmail.value) else "";
    assert Compose(base, ctx1) == base + a1 + tail;
    assert Compose(base, ctx2) == base + a2 + tail;
    assert |a1| == |a2|;
    assert a1 == Compose(base, ctx1)[|base|..|base| + |a1|];
    assert a2 == Compose(base, ctx2)[|base|..|base| + |a2|];
    AdditionsDistinct();
  }

  /** A prompt with an identity block determines the email in it. */
  lemma PromptDeterminesEmail(base: string, ctx1: PromptContext, ctx2: PromptContext)
    requires HasEmail(ctx1) && HasEmail(ctx2)
    requires EffectiveSentiment(ctx1) == EffectiveSentiment(ctx2)
    requires Compose(base, ctx1) == Compose(base, ctx2)
    ensures ctx1.customerEmail == ctx2.customerEmail
  {
    var w := base + SentimentAddition(EffectiveSentiment(ctx1));
    var e1, e2 := ctx1.customerEmail.value, ctx2.customerEmail.value;
    assert Compose(base, ctx1) == w + EmailBlock(e1);
    assert Compose(base, ctx2) == w + EmailBlock(e2);
    EmailBlockFrame(w, e1);
    EmailBlockFrame(w, e2);
    SameFrameSameMiddle(w + EmailBlockHead, e1, e2, EmailBlockTail);
  }

  /** Appending the identity block puts the email between the fixed head and tail. */
  lemma EmailBlockFrame(w: string, email: string)
    ensures w + EmailBlock(email) == (w + EmailBlockHead) + email + EmailBlockTail
  {
  }

  /** Two strings sharing a head and a tail agree on what lies between them. */
  lemma SameFrameSameMiddle(head: string, m1: string, m2: string, tail: string)
    requires head + m1 + tail == head + m2 + tail
    ensures m1 == m2
  {
    var whole := head + m1 + tail;
    assert |m1| == |m2|;
    assert m1 == whole[|head|..|head| + |m1|];
    assert m2 == (head + m2 + tail)[|head|..|head| + |m2|];
  }
}

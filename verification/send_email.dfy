/**
 * The mail-sending endpoint: the order of its checks, the payload it hands to
 * the mail provider, and the tag stripping that derives a plain-text body.
 */
module SendEmail {
  import opened Wrappers
  import opened Text
  import Seqs

  /** The `to` field of the request body. */
  datatype Recipients = NoRecipient | One(address: string) | Many(addresses: seq<string>)

  /** JavaScript truthiness of `to`: any array counts, even an empty one. */
  predicate HasRecipient(to: Recipients) {
    match to
    case NoRecipient => false
    case One(a) => a != ""
    case Many(_) => true
  }

  /** `Array.isArray(to) ? to : [to]`. */
  function RecipientList(to: Recipients): (r: seq<string>)
    requires HasRecipient(to)
    ensures to.One? ==> r == [to.address]
    ensures to.Many? ==> r == to.addresses
  {
    if to.One? then [to.address] else to.addresses
  }

  datatype Fields = Fields(to: Recipients, subject: Option<string>, html: Option<string>, text: Option<string>)

  /** The request body: its fields, or a parse failure with the parser's message. */
  datatype BodyParse = Parsed(fields: Fields) | Unparseable(message: string)

  /** What the mail provider is asked to send. */
  datatype Payload = Payload(from: string, to: seq<string>, subject: string, html: string, text: string)

  /** How the provider answers. */
  datatype ProviderReply = Sent(id: Option<string>) | ProviderError(message: string) | ProviderThrew(message: string)

  datatype Response = Json(status: int, body: ResponseBody)
  datatype ResponseBody = ErrorBody(error: string) | SuccessBody(id: Option<string>)

  const DefaultFrom: string := "Vibo <noreply@vibo.app>"

  // ---- Tag stripping ---------------------------------------------------

  /** Index of the first '>' in `s`, or `|s|`. */
  function FirstClose(s: string): (k: nat)
    ensures k <= |s|
    ensures forall m | 0 <= m < k :: s[m] != '>'
    ensures k < |s| ==> s[k] == '>'
  {
    if s == [] then 0 else if s[0] == '>' then 0 else 1 + FirstClose(s[1..])
  }

  /**
   * `replace(/<[^>]*>/g, "")`: at each '<' that some later '>' closes, drop
   * everything up to the first such '>'; a '<' with no '>' after it stays.
   */
  function StripTags(s: string): (r: string)
    ensures |r| <= |s|
    decreases |s|
  {
    if s == [] then []
    else if s[0] == '<' && FirstClose(s[1..]) < |s[1..]| then StripTags(s[1..][FirstClose(s[1..]) + 1..])
    else [s[0]] + StripTags(s[1..])
  }

  /** `s` holds a '<' followed, somewhere later, by a '>'. */
  predicate HasTag(s: string) {
    exists a, b | 0 <= a < b < |s| :: s[a] == '<' && s[b] == '>'
  }

  /** Stripping only removes characters: the result is a subsequence of the input. */
  lemma {:induction false} StripTagsIsSubsequence(s: string)
    ensures Seqs.Subsequence(StripTags(s), s)
    decreases |s|
  {
    if s != [] {
      var t := s[1..];
      if s[0] == '<' && FirstClose(t) < |t| {
        var rest := t[FirstClose(t) + 1..];
        StripTagsIsSubsequence(rest);
        DropPrefixSubsequence(StripTags(rest), s, |s| - |rest|);
      } else {
        StripTagsIsSubsequence(t);
        assert ([s[0]] + StripTags(t))[1..] == StripTags(t);
      }
    }
  }

  /** A subsequence of a suffix is a subsequence of the whole. */
  lemma {:induction false} DropPrefixSubsequence(a: string, s: string, n: nat)
    requires n <= |s| && Seqs.Subsequence(a, s[n..])
    ensures Seqs.Subsequence(a, s)
    decreases n
  {
    if n > 0 {
      assert s[n - 1..][1..] == s[n..];
      Seqs.SubsequenceDropHead(a, s[n - 1..]);
      DropPrefixSubsequence(a, s, n - 1);
    }
  }

  /** Every character of a subsequence occurs in the sequence. */
  lemma {:induction false} SubsequenceMembers(a: string, s: string)
    requires Seqs.Subsequence(a, s)
    ensures forall c | c in a :: c in s
    decreases |s|
  {
    if a != [] && s != [] {
      if a[0] == s[0] {
        SubsequenceMembers(a[1..], s[1..]);
        assert forall c | c in a :: c == a[0] || c in a[1..];
      } else {
        SubsequenceMembers(a, s[1..]);
      }
    }
  }

  /** No tag survives: every '<' left in the result has no '>' after it. */
  lemma {:induction false} StripTagsRemovesTags(s: string)
    ensures !HasTag(StripTags(s))
    decreases |s|
  {
    if s != [] {
      var t := s[1..];
      if s[0] == '<' && FirstClose(t) < |t| {
        StripTagsRemovesTags(t[FirstClose(t) + 1..]);
      } else {
        var r := StripTags(s);
        StripTagsRemovesTags(t);
        if s[0] == '<' {
          StripTagsIsSubsequence(t);
          SubsequenceMembers(StripTags(t), t);
          assert '>' !in t;
        }
        forall a, b | 0 <= a < b < |r| ensures !(r[a] == '<' && r[b] == '>') {
          if a > 0 {
            assert r[a] == StripTags(t)[a - 1] && r[b] == StripTags(t)[b - 1];
          } else if s[0] == '<' {
            assert r[b] == StripTags(t)[b - 1];
            assert r[b] in StripTags(t);
          }
        }
      }
    }
  }

  /** Text without a tag passes through unchanged. */
  lemma {:induction false} StripTagsKeepsTagless(s: string)
    requires !HasTag(s)
    ensures StripTags(s) == s
    decreases |s|
  {
    if s != [] {
      var t := s[1..];
      assert StripTags(s) == [s[0]] + StripTags(t) by {
        assert !(s[0] == '<' && FirstClose(t) < |t|) by {
          if FirstClose(t) < |t| {
            assert s[FirstClose(t) + 1] == t[FirstClose(t)] == '>';
          }
        }
      }
      assert !HasTag(t) by {
        forall a, b | 0 <= a < b < |t| ensures !(t[a] == '<' && t[b] == '>') {
          assert t[a] == s[a + 1] && t[b] == s[b + 1];
        }
      }
      StripTagsKeepsTagless(t);
    }
  }

  /** A first character other than '<' is kept, and the rest is stripped on its own. */
  lemma StripTagsPlainHead(c: char, s: string)
    requires c != '<'
    ensures StripTags([c] + s) == [c] + StripTags(s)
  {
    assert ([c] + s)[0] == c && ([c] + s)[1..] == s;
  }

  /** Text before the first '<' is kept as it is. */
  lemma {:induction false} StripTagsKeepsText(x: string, y: string)
    requires '<' !in x
    ensures StripTags(x + y) == x + StripTags(y)
  {
    if x == [] {
      assert x + y == y;
    } else {
      assert StripTags(x + y) == [x[0]] + StripTags(x[1..] + y) by {
        assert x + y == [x[0]] + (x[1..] + y);
        StripTagsPlainHead(x[0], x[1..] + y);
      }
      StripTagsKeepsText(x[1..], y);
      assert [x[0]] + (x[1..] + StripTags(y)) == x + StripTags(y);
    }
  }

  /** The first '>' after a stretch without '>' is the one that ends it. */
  lemma FirstCloseAfter(t: string, y: string)
    requires '>' !in t
    ensures FirstClose(t + ">" + y) == |t|
  {
    var s := t + ">" + y;
    assert s[|t|] == '>';
  }

  /** One tag, with only text before it, is removed together with its brackets; the text and what follows are kept. */
  lemma StripTagsDropsOneTag(x: string, t: string, y: string)
    requires '<' !in x && '>' !in t
    ensures StripTags(x + "<" + t + ">" + y) == x + StripTags(y)
  {
    var s := "<" + t + ">" + y;
    StripTagsOpeningTag(t, y);
    StripTagsKeepsText(x, s);
    Regroup(x, "<", t, ">", y);
  }

  /** Concatenation regrouped: a tag written after some text is that text followed by the tag. */
  lemma Regroup(x: string, a: string, t: string, b: string, y: string)
    ensures x + a + t + b + y == x + (a + t + b + y)
  {
  }

  /** A leading tag is removed with its brackets. */
  lemma StripTagsOpeningTag(t: string, y: string)
    requires '>' !in t
    ensures StripTags("<" + t + ">" + y) == StripTags(y)
  {
    var s := "<" + t + ">" + y;
    var u := t + ">" + y;
    assert s[0] == '<';
    assert s[1..] == u;
    FirstCloseAfter(t, y);
    assert u[|t| + 1..] == y;
  }

  /** Stripping twice is stripping once. */
  lemma StripTagsIdempotent(s: string)
    ensures StripTags(StripTags(s)) == StripTags(s)
  {
    StripTagsRemovesTags(s);
    StripTagsKeepsTagless(StripTags(s));
  }

  /** Text with no '<' at all is never touched. */
  lemma PlainTextUnchanged(s: string)
    requires '<' !in s
    ensures StripTags(s) == s
  {
    StripTagsKeepsTagless(s);
  }

  // ---- The endpoint ----------------------------------------------------

  /** The payload built from checked fields; the plain text falls back to the tag-stripped HTML. */
  function BuildPayload(f: Fields, fromEnv: Option<string>): (p: Payload)
    requires HasRecipient(f.to) && Present(f.subject) && (Present(f.html) || Present(f.text))
    ensures p.from == (if Present(fromEnv) then fromEnv.value else DefaultFrom)
    ensures p.to == RecipientList(f.to) && p.subject == f.subject.value
    ensures p.html == (if Present(f.html) then f.html.value else f.text.value)
    ensures Present(f.text) ==> p.text == f.text.value
    ensures !Present(f.text) ==> p.text == StripTags(f.html.value)
    ensures p.html != ""
  {
    Payload(if Present(fromEnv) then fromEnv.value else DefaultFrom,
            RecipientList(f.to), f.subject.value,
            if Present(f.html) then f.html.value else f.text.value,
            if Present(f.text) then f.text.value else StripTags(f.html.value))
  }

  /** A derived plain-text body never carries a tag, and uses only characters of the HTML. */
  lemma DerivedTextHasNoTags(f: Fields, fromEnv: Option<string>)
    requires HasRecipient(f.to) && Present(f.subject) && Present(f.html) && !Present(f.text)
    ensures !HasTag(BuildPayload(f, fromEnv).text)
    ensures forall c | c in BuildPayload(f, fromEnv).text :: c in f.html.value
  {
    StripTagsRemovesTags(f.html.value);
    StripTagsIsSubsequence(f.html.value);
    SubsequenceMembers(StripTags(f.html.value), f.html.value);
  }

  /** The outcome of the request, and the payload when one is handed to the provider. */
  datatype Handled = Handled(response: Response, sent: Option<Payload>)

  /**
   * One request. Checks run in order: signed in (401), required fields (400),
   * provider key configured (500); then the provider is called.
   */
  function HandlePost(signedIn: bool, body: BodyParse, apiKey: Option<string>, fromEnv: Option<string>,
                      reply: ProviderReply): (h: Handled)
    ensures !signedIn ==> h == Handled(Json(401, ErrorBody("Unauthorized")), None)
    ensures signedIn && body.Unparseable? ==> h.sent.None? && h.response.status == 500
    ensures h.response.status == 400 <==>
      signedIn && body.Parsed? && !ValidFields(body.fields)
    ensures h.response.status == 400 ==> h.response.body == ErrorBody("Missing required fields")
    ensures h.sent.Some? <==> signedIn && body.Parsed? && ValidFields(body.fields) && Present(apiKey)
    ensures h.sent.Some? ==> h.sent.value == BuildPayload(body.fields, fromEnv)
    ensures h.response.status == 200 <==> h.sent.Some? && reply.Sent?
    ensures h.response.status == 200 ==> h.response.body == SuccessBody(reply.id)
    ensures signedIn && body.Unparseable? ==> h.response == Json(500, ErrorBody(ThrownMessage(body.message)))
    ensures signedIn && body.Parsed? && ValidFields(body.fields) && !Present(apiKey) ==>
      h == Handled(Json(500, ErrorBody("Email service not configured")), None)
    ensures h.sent.Some? && reply.ProviderError? ==> h.response == Json(500, ErrorBody(reply.message))
    ensures h.sent.Some? && reply.ProviderThrew? ==> h.response == Json(500, ErrorBody(ThrownMessage(reply.message)))
  {
    if !signedIn then Handled(Json(401, ErrorBody("Unauthorized")), None)
    else match body
      case Unparseable(m) => Handled(Json(500, ErrorBody(ThrownMessage(m))), None)
      case Parsed(f) =>
        if !ValidFields(f) then Handled(Json(400, ErrorBody("Missing required fields")), None)
        else if !Present(apiKey) then Handled(Json(500, ErrorBody("Email service not configured")), None)
        else
          var p := Some(BuildPayload(f, fromEnv));
          match reply
          case Sent(id) => Handled(Json(200, SuccessBody(id)), p)
          case ProviderError(m) => Handled(Json(500, ErrorBody(m)), p)
          case ProviderThrew(m) => Handled(Json(500, ErrorBody(ThrownMessage(m))), p)
  }

  /** The message of a caught error, `error.message || "Failed to send email"`. */
  function ThrownMessage(m: string): (r: string)
    ensures r != ""
    ensures m != "" ==> r == m
    ensures m == "" ==> r == "Failed to send email"
  {
    if m == "" then "Failed to send email" else m
  }

  /** `!to || !subject || (!html && !text)` fails. */
  predicate ValidFields(f: Fields) {
    HasRecipient(f.to) && Present(f.subject) && (Present(f.html) || Present(f.text))
  }

  /** An empty list of addresses passes the check and is sent as is, while an empty address does not. */
  lemma EmptyListPassesCheck(subject: string, text: string)
    requires subject != "" && text != ""
    ensures ValidFields(Fields(Many([]), Some(subject), None, Some(text)))
    ensures !ValidFields(Fields(One(""), Some(subject), None, Some(text)))
  {
  }
}

/** What the two `/api/fortune` handlers share: the Korean sentence sent as the prompt,
    the walk over the model's answer that collects its text, and the shapes of requests,
    upstream answers and replies. */
module FortuneCommon {
  import opened JsValues

  // ---------------------------------------------------------------------------
  // The prompt: `나는 ${year}년 ${month}월 ${day}일${hour ? ` ${hour}시` : ''}${minute ? ` ${minute}분` : ''} 생이다`

  function DatePart(year: JsValue, month: JsValue, day: JsValue): string
  {
    "나는 " + TemplateText(year) + "년 " + TemplateText(month) + "월 " + TemplateText(day) + "일"
  }

  /** `birthInfo`: the date, then ` {hour}시` when the hour is truthy and ` {minute}분`
      when the minute is truthy, then ` 생이다`. */
  function BirthInfo(year: JsValue, month: JsValue, day: JsValue, hour: JsValue, minute: JsValue): string
  {
    Sentence(DatePart(year, month, day), TemplateText(hour), TemplateText(minute), Truthy(hour), Truthy(minute))
  }

  /** A field whose text holds neither unit character. */
  predicate FreeOfUnits(v: JsValue)
  {
    v.Str? ==> '시' !in v.s && '분' !in v.s
  }

  lemma TextFreeOfUnits(v: JsValue)
    requires FreeOfUnits(v)
    ensures '시' !in TemplateText(v) && '분' !in TemplateText(v)
  {
    var t := TemplateText(v);
    if v.Num? {
      if v.n >= 0 {
        assert forall i :: 0 <= i < |t| ==> IsDigit(t[i]);
      } else {
        assert t == [t[0]] + t[1..];
        assert forall i :: 0 <= i < |t[1..]| ==> IsDigit(t[1..][i]);
      }
    }
  }

  lemma DatePartFreeOfUnits(year: JsValue, month: JsValue, day: JsValue)
    requires FreeOfUnits(year) && FreeOfUnits(month) && FreeOfUnits(day)
    ensures '시' !in DatePart(year, month, day) && '분' !in DatePart(year, month, day)
  {
    TextFreeOfUnits(year);
    TextFreeOfUnits(month);
    TextFreeOfUnits(day);
  }

  /** The prompt's shape, with the pieces as plain strings and each optional clause on or
      off. */
  function Sentence(date: string, h: string, m: string, hourOn: bool, minuteOn: bool): string
  {
    date + (if hourOn then " " + h + "시" else "") + (if minuteOn then " " + m + "분" else "") + " 생이다"
  }

  predicate NoUnits(s: string)
  {
    '시' !in s && '분' !in s
  }

  /** In a sentence whose pieces hold no unit character, each unit occurs exactly when its
      clause is on. */
  lemma UnitsOfSentence(date: string, h: string, m: string, hourOn: bool, minuteOn: bool)
    requires NoUnits(date) && NoUnits(h) && NoUnits(m)
    ensures '시' in Sentence(date, h, m, hourOn, minuteOn) <==> hourOn
    ensures '분' in Sentence(date, h, m, hourOn, minuteOn) <==> minuteOn
  {
    var hourText := if hourOn then " " + h + "시" else "";
    var minuteText := if minuteOn then " " + m + "분" else "";
    assert NoUnits(" ") && NoUnits(" 생이다");
    assert '분' !in hourText && ('시' in hourText <==> hourOn);
    assert '시' !in minuteText && ('분' in minuteText <==> minuteOn);
    assert Sentence(date, h, m, hourOn, minuteOn) == date + hourText + minuteText + " 생이다";
  }

  /** The hour unit stands right after the date and the hour text. */
  lemma HourUnitPosition(date: string, h: string, m: string, minuteOn: bool)
    requires NoUnits(date) && NoUnits(h)
    ensures IndexOf(Sentence(date, h, m, true, minuteOn), '시') == |date| + 1 + |h|
  {
    var before := date + " " + h;
    assert NoUnits(" ");
    assert '시' !in before;
    var after := (if minuteOn then " " + m + "분" else "") + " 생이다";
    assert Sentence(date, h, m, true, minuteOn) == before + ['시'] + after;
    IndexOfAfter(before, '시', after);
  }

  /** The minute unit stands after the hour unit. */
  lemma MinuteUnitPosition(date: string, h: string, m: string)
    requires NoUnits(date) && NoUnits(h) && NoUnits(m)
    ensures IndexOf(Sentence(date, h, m, true, true), '분') == |date| + 1 + |h| + 2 + |m|
  {
    var before := date + " " + h + "시" + " " + m;
    assert NoUnits(" ") && '분' !in "시";
    assert '분' !in before;
    assert Sentence(date, h, m, true, true) == before + ['분'] + " 생이다";
    IndexOfAfter(before, '분', " 생이다");
  }

  /** Where each piece of a sentence stands: the date first, then the hour clause when it is
      on, then the minute clause when it is on, then ` 생이다` at the end. */
  lemma SentencePieces(date: string, h: string, m: string, hourOn: bool, minuteOn: bool)
    ensures var p := Sentence(date, h, m, hourOn, minuteOn);
            var hourLen := if hourOn then 2 + |h| else 0;
            var minuteLen := if minuteOn then 2 + |m| else 0;
            |p| == |date| + hourLen + minuteLen + 4
            && p[..|date|] == date
            && (hourOn ==> p[|date|..|date| + hourLen] == " " + h + "시")
            && (minuteOn ==> p[|date| + hourLen..|date| + hourLen + minuteLen] == " " + m + "분")
            && p[|p| - 4..] == " 생이다"
  {
    var hourText := if hourOn then " " + h + "시" else "";
    var minuteText := if minuteOn then " " + m + "분" else "";
    var p := Sentence(date, h, m, hourOn, minuteOn);
    assert p == date + hourText + minuteText + " 생이다";
    assert p[..|date|] == date;
    assert p[|date|..|date| + |hourText|] == hourText;
    assert p[|date| + |hourText|..|date| + |hourText| + |minuteText|] == minuteText;
  }

  /** The prompt is `나는 {year}년 {month}월 {day}일`, then ` {hour}시` exactly when the hour is
      truthy, then ` {minute}분` exactly when the minute is truthy, then ` 생이다`, each value
      written as `${}` writes it. */
  lemma BirthInfoText(year: JsValue, month: JsValue, day: JsValue, hour: JsValue, minute: JsValue)
    ensures var d := DatePart(year, month, day);
            d == "나는 " + TemplateText(year) + "년 " + TemplateText(month) + "월 " + TemplateText(day) + "일"
    ensures var p := BirthInfo(year, month, day, hour, minute);
            var d := DatePart(year, month, day);
            var h, m := TemplateText(hour), TemplateText(minute);
            var hourLen := if Truthy(hour) then 2 + |h| else 0;
            var minuteLen := if Truthy(minute) then 2 + |m| else 0;
            |p| == |d| + hourLen + minuteLen + 4
            && p[..|d|] == d
            && (Truthy(hour) ==> p[|d|..|d| + hourLen] == " " + h + "시")
            && (Truthy(minute) ==> p[|d| + hourLen..|d| + hourLen + minuteLen] == " " + m + "분")
            && p[|p| - 4..] == " 생이다"
  {
    SentencePieces(DatePart(year, month, day), TemplateText(hour), TemplateText(minute), Truthy(hour), Truthy(minute));
  }

  /** The prompt holds the hour clause exactly when the hour is truthy and the minute clause
      exactly when the minute is truthy; the hour clause comes right after the date and
      before the minute clause. */
  lemma BirthInfoTimeClauses(year: JsValue, month: JsValue, day: JsValue, hour: JsValue, minute: JsValue)
    requires FreeOfUnits(year) && FreeOfUnits(month) && FreeOfUnits(day)
    requires FreeOfUnits(hour) && FreeOfUnits(minute)
    ensures var p := BirthInfo(year, month, day, hour, minute);
            ('시' in p <==> Truthy(hour)) && ('분' in p <==> Truthy(minute))
    ensures var p := BirthInfo(year, month, day, hour, minute);
            Truthy(hour) ==> IndexOf(p, '시') == |DatePart(year, month, day)| + 1 + |TemplateText(hour)|
    ensures var p := BirthInfo(year, month, day, hour, minute);
            Truthy(hour) && Truthy(minute) ==> IndexOf(p, '시') < IndexOf(p, '분')
  {
    var date, h, m := DatePart(year, month, day), TemplateText(hour), TemplateText(minute);
    DatePartFreeOfUnits(year, month, day);
    TextFreeOfUnits(hour);
    TextFreeOfUnits(minute);
    UnitsOfSentence(date, h, m, Truthy(hour), Truthy(minute));
    if Truthy(hour) {
      HourUnitPosition(date, h, m, Truthy(minute));
      if Truthy(minute) {
        MinuteUnitPosition(date, h, m);
      }
    }
  }

  // ---------------------------------------------------------------------------
  // The model's answer and the text collected from it

  /** One entry of `item.content`. */
  datatype ContentBlock = ContentBlock(blockType: JsValue, text: JsValue)

  /** One entry of `data.output`; `content` is `None` when it is missing or `null`. */
  datatype OutputItem = OutputItem(itemType: JsValue, content: Option<seq<ContentBlock>>)

  /** The parsed answer; `output` is `None` when it is missing or `null`. */
  datatype Envelope = Envelope(output: Option<seq<OutputItem>>)

  predicate IsMessage(item: OutputItem)
  {
    item.itemType == Str("message") && item.content.Some?
  }

  predicate IsOutputText(block: ContentBlock)
  {
    block.blockType == Str("output_text")
  }

  /** The text of the `output_text` blocks, in order (`text += content.text`). */
  function BlocksText(blocks: seq<ContentBlock>): string
  {
    if blocks == [] then ""
    else
      var last := blocks[|blocks| - 1];
      BlocksText(blocks[..|blocks| - 1]) + (if IsOutputText(last) then TemplateText(last.text) else "")
  }

  function ItemText(item: OutputItem): string
  {
    if IsMessage(item) then BlocksText(item.content.value) else ""
  }

  function ItemsText(items: seq<OutputItem>): string
  {
    if items == [] then "" else ItemsText(items[..|items| - 1]) + ItemText(items[|items| - 1])
  }

  /** The text the handlers answer with. */
  function OutputText(data: Envelope): string
  {
    if data.output.Some? then ItemsText(data.output.value) else ""
  }

  /** The nested loop of both handlers: walk the items, and inside each message its
      blocks, appending the text of every `output_text` block. */
  method ExtractOutputText(data: Envelope) returns (text: string)
    ensures text == OutputText(data)
  {
    text := "";
    if data.output.Some? {
      var items := data.output.value;
      for i := 0 to |items|
        invariant text == ItemsText(items[..i])
      {
        assert items[..i + 1][..i] == items[..i];
        text := AppendItemText(text, items[i]);
      }
      assert items[..|items|] == items;
    }
  }

  /** The inner loop: one item's blocks appended to the text so far. */
  method AppendItemText(before: string, item: OutputItem) returns (text: string)
    ensures text == before + ItemText(item)
  {
    text := before;
    if item.itemType == Str("message") && item.content.Some? {
      var blocks := item.content.value;
      for j := 0 to |blocks|
        invariant text == before + BlocksText(blocks[..j])
      {
        assert blocks[..j + 1][..j] == blocks[..j];
        var block := blocks[j];
        if block.blockType == Str("output_text") {
          text := text + TemplateText(block.text);
        }
      }
      assert blocks[..|blocks|] == blocks;
    }
  }

  /** The text of consecutive blocks is the text of the first ones followed by the rest. */
  lemma {:induction false} BlocksTextAppend(a: seq<ContentBlock>, b: seq<ContentBlock>)
    ensures BlocksText(a + b) == BlocksText(a) + BlocksText(b)
    decreases |b|
  {
    if b != [] {
      var shorter := b[..|b| - 1];
      BlocksTextAppend(a, shorter);
      assert (a + b)[..|a + b| - 1] == a + shorter;
    } else {
      assert a + b == a;
    }
  }

  /** The same for items. */
  lemma {:induction false} ItemsTextAppend(a: seq<OutputItem>, b: seq<OutputItem>)
    ensures ItemsText(a + b) == ItemsText(a) + ItemsText(b)
    decreases |b|
  {
    if b != [] {
      var shorter := b[..|b| - 1];
      ItemsTextAppend(a, shorter);
      assert (a + b)[..|a + b| - 1] == a + shorter;
    } else {
      assert a + b == a;
    }
  }

  /** An item that is not a message with content adds nothing, wherever it stands. */
  lemma OtherItemsAddNothing(a: seq<OutputItem>, item: OutputItem, b: seq<OutputItem>)
    requires !IsMessage(item)
    ensures ItemsText(a + [item] + b) == ItemsText(a + b)
  {
    ItemsTextAppend(a + [item], b);
    ItemsTextAppend(a, b);
    assert (a + [item])[..|a|] == a;
    assert ItemsText(a + [item]) == ItemsText(a);
  }

  /** A block whose text renders: an `output_text` block with a text other than `""`. */
  predicate Speaks(block: ContentBlock)
  {
    IsOutputText(block) && block.text != Str("")
  }

  predicate SilentItem(item: OutputItem)
  {
    IsMessage(item) ==> forall k :: 0 <= k < |item.content.value| ==> !Speaks(item.content.value[k])
  }

  lemma {:induction false} BlocksTextEmpty(blocks: seq<ContentBlock>)
    ensures BlocksText(blocks) == "" <==> forall k :: 0 <= k < |blocks| ==> !Speaks(blocks[k])
  {
    if blocks != [] {
      var front := blocks[..|blocks| - 1];
      var last := blocks[|blocks| - 1];
      BlocksTextEmpty(front);
      TemplateTextEmpty(last.text);
      var tail := if IsOutputText(last) then TemplateText(last.text) else "";
      assert BlocksText(blocks) == BlocksText(front) + tail;
      assert tail == "" <==> !Speaks(last);
      assert blocks == front + [last];
    }
  }

  lemma {:induction false} ItemsTextEmpty(items: seq<OutputItem>)
    ensures ItemsText(items) == "" <==> forall i :: 0 <= i < |items| ==> SilentItem(items[i])
  {
    if items != [] {
      var front := items[..|items| - 1];
      var last := items[|items| - 1];
      ItemsTextEmpty(front);
      ItemTextEmpty(last);
      assert ItemsText(items) == ItemsText(front) + ItemText(last);
      assert forall i :: 0 <= i < |front| ==> front[i] == items[i];
    }
  }

  /** One item adds no text exactly when it is silent. */
  lemma ItemTextEmpty(item: OutputItem)
    ensures ItemText(item) == "" <==> SilentItem(item)
  {
    if IsMessage(item) {
      BlocksTextEmpty(item.content.value);
    }
  }

  /** The collected text is empty exactly when the answer has no output, or no message in
      it holds an `output_text` block with a non-empty text. */
  lemma OutputTextEmpty(data: Envelope)
    ensures OutputText(data) == "" <==>
              data.output.None? || forall i :: 0 <= i < |data.output.value| ==> SilentItem(data.output.value[i])
  {
    if data.output.Some? {
      ItemsTextEmpty(data.output.value);
    }
  }

  // ---------------------------------------------------------------------------
  // Requests, upstream answers and replies

  /** The request body after JSON parsing: not JSON at all, the JSON `null`, or a value
      whose five date properties are read (any other JSON value reads as all `undefined`). */
  datatype RequestBody = Unparsable | JsonNull
                       | Fields(year: JsValue, month: JsValue, day: JsValue, hour: JsValue, minute: JsValue)

  /** `!year || !month || !day`, negated. */
  predicate HasDate(body: RequestBody)
    requires body.Fields?
  {
    Truthy(body.year) && Truthy(body.month) && Truthy(body.day)
  }

  /** The prompt built from a body with fields. */
  function Prompt(body: RequestBody): string
    requires body.Fields?
  {
    BirthInfo(body.year, body.month, body.day, body.hour, body.minute)
  }

  /** How the model service answers: `fetch` rejects, the status is not ok (with the error
      text the handlers only log), the body is not JSON, or a parsed answer. */
  datatype Upstream = FetchFailed | NotOk(errorText: string) | BadJson | Answered(data: Envelope)

  /** The request sent to the model service: the bearer key and the prompt text. */
  datatype UpstreamRequest = UpstreamRequest(apiKey: string, prompt: string)

  /** A JSON reply body `{ error }` or `{ content }`, or none. */
  datatype Body = NoBody | ErrorBody(error: string) | ContentBody(content: string)

  datatype Reply = Reply(status: int, headers: seq<(string, string)>, body: Body)

  /** What a handler does: it replies, having sent at most one upstream request, or it
      throws out of the handler. */
  datatype Outcome = Replied(reply: Reply, request: Option<UpstreamRequest>) | Uncaught

  const JsonContentType: (string, string) := ("Content-Type", "application/json")

  /** The error messages both handlers share. */
  const DateRequiredMessage: string := "생년월일은 필수입니다."
  const NoAnswerMessage: string := "AI 응답을 받지 못했습니다."
  const ServerErrorMessage: string := "서버 오류가 발생했습니다."
}

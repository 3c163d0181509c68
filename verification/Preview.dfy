/** The message a draft produces, and why its preview is what gets delivered. */
module Preview {
  import opened Wrappers
  import opened Json
  import opened Interpolation

  datatype EmbedDraft = EmbedDraft(
    content: string, title: string, description: string, color: string, imageUrl: string)

  const DEFAULT_COLOR := 0x9146FF

  // ---------------------------------------------------------------- trimming and colours

  predicate IsSpace(c: char) {
    var n := c as int;
    9 <= n <= 13 || n == 32 || n == 0xA0 || n == 0x1680 || 0x2000 <= n <= 0x200A || n == 0x2028
    || n == 0x2029 || n == 0x202F || n == 0x205F || n == 0x3000 || n == 0xFEFF
  }

  function TrimStart(s: string): string {
    if s != "" && IsSpace(s[0]) then TrimStart(s[1..]) else s
  }

  function TrimEnd(s: string): string {
    if s != "" && IsSpace(s[|s| - 1]) then TrimEnd(s[..|s| - 1]) else s
  }

  function Trim(s: string): string {
    TrimEnd(TrimStart(s))
  }

  /** The value of a run of hexadecimal digits, if it is one. */
  function HexNumber(s: string): Option<nat> {
    if s == "" then Some(0)
    else
      match (HexNumber(s[..|s| - 1]), HexValue(s[|s| - 1]))
      case (Some(high), Some(low)) => Some(16 * high + low)
      case _ => None
  }

  function ParseColor(color: string): nat {
    var t := Trim(color);
    var hex := if t != "" && t[0] == '#' then t[1..] else t;
    match HexNumber(hex)
    case Some(n) => if |hex| == 6 then n else DEFAULT_COLOR
    case None => DEFAULT_COLOR
  }

  function Decimal(n: nat): (t: string)
    ensures IsNumText(t)
  {
    var digit := '0' + (n % 10) as char;
    if n < 10 then [digit] else Decimal(n / 10) + [digit]
  }

  // ---------------------------------------------------------------- the message of a draft

  const CONTENT := "content"
  const EMBEDS := "embeds"
  const TITLE := "title"
  const DESCRIPTION := "description"
  const IMAGE := "image"
  const URL := "url"
  const COLOR := "color"

  function Single(key: string, value: Json): Members {
    MCons(key, value, MNil)
  }

  function Field(key: string, value: string, rest: Members): Members {
    if value == "" then rest else MCons(key, Str(value), rest)
  }

  function ImageField(url: string, rest: Members): Members {
    if url == "" then rest else MCons(IMAGE, Obj(Single(URL, Str(url))), rest)
  }

  function Embed(title: string, description: string, imageUrl: string, color: nat): Members {
    Field(TITLE, title, Field(DESCRIPTION, description, ImageField(imageUrl, Single(COLOR, Num(Decimal(color))))))
  }

  function Embeds(embed: Members): Members {
    Single(EMBEDS, Arr(ECons(Obj(embed), ENil)))
  }

  /** No embed at all when it would have neither text nor image. */
  function Rest(title: string, description: string, imageUrl: string, color: nat): Members {
    if title == "" && description == "" && imageUrl == "" then MNil
    else Embeds(Embed(title, description, imageUrl, color))
  }

  function Message(content: string, title: string, description: string, imageUrl: string, color: nat): Members {
    Field(CONTENT, content, Rest(title, description, imageUrl, color))
  }

  /** A field is present exactly when its transformed text is not empty. */
  function MessagePayload(draft: EmbedDraft, transform: string -> string): Json {
    Obj(Message(transform(Trim(draft.content)), transform(Trim(draft.title)), transform(Trim(draft.description)),
                transform(Trim(draft.imageUrl)), ParseColor(draft.color)))
  }

  /** `buildMessagePayload` fills its object one property at a time. */
  method BuildMessagePayload(draft: EmbedDraft, transform: string -> string) returns (payload: Json)
    ensures payload == MessagePayload(draft, transform)
  {
    var members := MNil;
    AppendToFields();
    var content := transform(Trim(draft.content));
    if content != "" { members := Append(members, CONTENT, Str(content)); }
    var title := transform(Trim(draft.title));
    var description := transform(Trim(draft.description));
    var imageUrl := transform(Trim(draft.imageUrl));
    assert members == Field(CONTENT, content, MNil);
    if title != "" || description != "" || imageUrl != "" {
      var embed := MNil;
      if title != "" { embed := Append(embed, TITLE, Str(title)); }
      assert embed == Field(TITLE, title, MNil);
      if description != "" { embed := Append(embed, DESCRIPTION, Str(description)); }
      assert embed == Field(TITLE, title, Field(DESCRIPTION, description, MNil));
      if imageUrl != "" { embed := Append(embed, IMAGE, Obj(Single(URL, Str(imageUrl)))); }
      assert embed == Field(TITLE, title, Field(DESCRIPTION, description, ImageField(imageUrl, MNil)));
      embed := Append(embed, COLOR, Num(Decimal(ParseColor(draft.color))));
      assert embed == Embed(title, description, imageUrl, ParseColor(draft.color));
      members := Append(members, EMBEDS, Arr(ECons(Obj(embed), ENil)));
    }
    payload := Obj(members);
  }

  function Append(ms: Members, key: string, value: Json): Members {
    match ms
    case MNil => Single(key, value)
    case MCons(k, j, rest) => MCons(k, j, Append(rest, key, value))
  }

  lemma AppendToFields()
    ensures forall key: string, value: string, rest: Members, k: string, j: Json ::
      Append(Field(key, value, rest), k, j) == Field(key, value, Append(rest, k, j))
    ensures forall url: string, rest: Members, k: string, j: Json ::
      Append(ImageField(url, rest), k, j) == ImageField(url, Append(rest, k, j))
  {
  }

  // ---------------------------------------------------------------- outcomes, by the texts alone

  predicate IsWhite(c: char) {
    c as int in {9, 10, 11, 12, 13, 32, 0xA0, 0x1680, 0x2000, 0x2001, 0x2002, 0x2003, 0x2004, 0x2005, 0x2006,
                 0x2007, 0x2008, 0x2009, 0x200A, 0x2028, 0x2029, 0x202F, 0x205F, 0x3000, 0xFEFF}
  }

  lemma SpaceIsWhite(c: char)
    ensures IsSpace(c) <==> IsWhite(c)
  {
  }

  predicate AllSpace(s: string) {
    forall i :: 0 <= i < |s| ==> IsWhite(s[i])
  }

  /** Trimming takes white space off both ends, all of it, and nothing else. */
  lemma TrimOutcome(s: string) returns (before: string, after: string)
    ensures s == before + Trim(s) + after && AllSpace(before) && AllSpace(after)
    ensures Trim(s) != "" ==> !IsWhite(Trim(s)[0]) && !IsWhite(Trim(s)[|Trim(s)| - 1])
  {
    var t := TrimStart(s);
    before := StartOutcome(s);
    after := EndOutcome(t);
    AppendThree(s, before, Trim(s), after);
    if Trim(s) != "" {
      assert Trim(s)[0] == t[0];
    }
  }

  lemma {:induction false} StartOutcome(s: string) returns (before: string)
    ensures s == before + TrimStart(s) && AllSpace(before)
    ensures TrimStart(s) != "" ==> !IsWhite(TrimStart(s)[0])
    decreases |s|
  {
    before := "";
    if s != "" {
      SpaceIsWhite(s[0]);
      if IsSpace(s[0]) {
        var rest := StartOutcome(s[1..]);
        before := [s[0]] + rest;
      }
    }
  }

  lemma {:induction false} EndOutcome(s: string) returns (after: string)
    ensures s == TrimEnd(s) + after && AllSpace(after)
    ensures TrimEnd(s) != "" ==> !IsWhite(TrimEnd(s)[|TrimEnd(s)| - 1])
    decreases |s|
  {
    after := "";
    if s != "" {
      SpaceIsWhite(s[|s| - 1]);
      if IsSpace(s[|s| - 1]) {
        var rest := EndOutcome(s[..|s| - 1]);
        after := rest + [s[|s| - 1]];
        LastSplit(s, TrimEnd(s), rest);
      }
    }
  }

  lemma LastSplit(s: string, a: string, b: string)
    requires s != "" && s[..|s| - 1] == a + b
    ensures s == a + (b + [s[|s| - 1]])
  {
    assert s == s[..|s| - 1] + [s[|s| - 1]];
  }

  predicate IsHex(c: char) {
    '0' <= c <= '9' || 'a' <= c <= 'f' || 'A' <= c <= 'F'
  }

  function HexOf(c: char): nat
    requires IsHex(c)
  {
    if c <= '9' then (c - '0') as nat else if c <= 'F' then 10 + (c - 'A') as nat else 10 + (c - 'a') as nat
  }

  lemma HexValueOutcome(c: char)
    ensures HexValue(c) == if IsHex(c) then Some(HexOf(c)) else None
  {
  }

  lemma HexLast(s: string)
    requires s != ""
    ensures var init, last := s[..|s| - 1], s[|s| - 1];
      && (HexNumber(s).Some? <==> HexNumber(init).Some? && IsHex(last))
      && (HexNumber(s).Some? ==> HexNumber(s).value == 16 * HexNumber(init).value + HexOf(last))
  {
    HexValueOutcome(s[|s| - 1]);
  }

  lemma {:induction false} HexDigitsOnly(s: string)
    ensures HexNumber(s).Some? <==> forall i :: 0 <= i < |s| ==> IsHex(s[i])
    decreases |s|
  {
    if s != "" {
      HexLast(s);
      HexDigitsOnly(s[..|s| - 1]);
    }
  }

  function SixDigits(s: string): nat
    requires |s| == 6 && forall i :: 0 <= i < |s| ==> IsHex(s[i])
  {
    1048576 * HexOf(s[0]) + 65536 * HexOf(s[1]) + 4096 * HexOf(s[2]) + 256 * HexOf(s[3]) + 16 * HexOf(s[4]) + HexOf(s[5])
  }

  lemma HexNumberOutcome(s: string)
    requires |s| == 6 && HexNumber(s).Some? && forall i :: 0 <= i < |s| ==> IsHex(s[i])
    ensures HexNumber(s).value == SixDigits(s)
  {
    assert s[..5][..4] == s[..4] && s[..4][..3] == s[..3] && s[..3][..2] == s[..2] && s[..2][..1] == s[..1] && s[..1][..0] == "";
    HexLast(s);
    HexLast(s[..5]);
    HexLast(s[..4]);
    HexLast(s[..3]);
    HexLast(s[..2]);
    HexLast(s[..1]);
  }

  /** A colour is read as six hexadecimal digits of either case, after trimming and one optional
      hash, and anything else is the default purple. */
  lemma ColorOutcome(color: string)
    ensures var t := Trim(color); var hex := if |t| > 0 && t[0] == '#' then t[1..] else t;
      ParseColor(color) == if |hex| == 6 && forall i :: 0 <= i < 6 ==> IsHex(hex[i]) then SixDigits(hex) else 9520895
  {
    var t := Trim(color);
    var hex := if |t| > 0 && t[0] == '#' then t[1..] else t;
    HexDigitsOnly(hex);
    if |hex| == 6 && HexNumber(hex).Some? {
      HexNumberOutcome(hex);
    }
  }

  function ValueOfDigits(t: string): int {
    if t == "" then 0 else 10 * ValueOfDigits(t[..|t| - 1]) + (t[|t| - 1] as int - '0' as int)
  }

  /** A number is printed as its decimal digits, without a leading zero. */
  lemma {:induction false} DecimalOutcome(n: nat)
    ensures ValueOfDigits(Decimal(n)) == n && (Decimal(n)[0] == '0' <==> n == 0)
    ensures forall c <- Decimal(n) :: '0' <= c <= '9'
    decreases n
  {
    if n >= 10 {
      DecimalOutcome(n / 10);
      var init, digit := Decimal(n / 10), '0' + (n % 10) as char;
      assert Decimal(n) == init + [digit];
      assert Decimal(n)[..|Decimal(n)| - 1] == init;
    } else {
      assert ValueOfDigits([]) == 0;
      assert Decimal(n)[..0] == [];
    }
  }

  function Lookup(ms: Members, key: string): Option<Json> {
    match ms
    case MNil => None
    case MCons(k, j, rest) => if k == key then Some(j) else Lookup(rest, key)
  }

  function TextOrNothing(text: string): Option<Json> {
    if |text| == 0 then None else Some(Str(text))
  }

  predicate OnlyKeys(ms: Members, keys: set<string>) {
    ms.MCons? ==> ms.key in keys && OnlyKeys(ms.rest, keys)
  }

  lemma KeyNames()
    ensures "content" != "embeds" && "title" != "description" && "title" != "image" && "title" != "color"
    ensures "description" != "image" && "description" != "color" && "image" != "color"
  {
    assert "content"[0] == 'c' && "embeds"[0] == 'e';
    assert "title"[0] == 't' && "description"[0] == 'd' && "image"[0] == 'i' && "color"[0] == 'c';
  }

  lemma FieldLookup(key: string, value: string, rest: Members, k: string)
    ensures k != key ==> Lookup(Field(key, value, rest), k) == Lookup(rest, k)
    ensures Lookup(rest, key).None? ==> Lookup(Field(key, value, rest), key) == TextOrNothing(value)
  {
  }

  lemma EmbedOutcome(title: string, description: string, imageUrl: string, color: nat)
    ensures var em := Embed(title, description, imageUrl, color);
      && Lookup(em, "title") == TextOrNothing(title) && Lookup(em, "description") == TextOrNothing(description)
      && Lookup(em, "image") == (if |imageUrl| == 0 then None else Some(Obj(MCons("url", Str(imageUrl), MNil))))
      && Lookup(em, "color") == Some(Num(Decimal(color)))
      && OnlyKeys(em, {"title", "description", "image", "color"})
  {
    KeyNames();
    var last := Single(COLOR, Num(Decimal(color)));
    var image := ImageField(imageUrl, last);
    var text := Field(DESCRIPTION, description, image);
    var keys := {"title", "description", "image", "color"};
    assert OnlyKeys(MNil, keys) && OnlyKeys(last, keys) && OnlyKeys(image, keys) && OnlyKeys(text, keys);
    FieldLookup(TITLE, title, text, "title");
    FieldLookup(TITLE, title, text, "description");
    FieldLookup(TITLE, title, text, "image");
    FieldLookup(TITLE, title, text, "color");
    FieldLookup(DESCRIPTION, description, image, "title");
    FieldLookup(DESCRIPTION, description, image, "description");
    FieldLookup(DESCRIPTION, description, image, "image");
    FieldLookup(DESCRIPTION, description, image, "color");
    assert Lookup(MNil, "title").None? && Lookup(MNil, "description").None? && Lookup(MNil, "image").None?;
    assert Lookup(last, "title").None? && Lookup(last, "description").None? && Lookup(last, "image").None?;
    assert Lookup(image, "title").None? && Lookup(image, "description").None?;
  }

  /** The message of a draft, property by property: the trimmed and transformed content if it is
      not empty; one embed unless title, description and image are all empty, with each of them
      that is not empty and always the colour; and no other property. */
  lemma MessageOutcome(draft: EmbedDraft, transform: string -> string)
    ensures var content, title := transform(Trim(draft.content)), transform(Trim(draft.title));
      var description, imageUrl := transform(Trim(draft.description)), transform(Trim(draft.imageUrl));
      var payload := MessagePayload(draft, transform);
      && payload.Obj? && OnlyKeys(payload.members, {"content", "embeds"})
      && Lookup(payload.members, "content") == TextOrNothing(content)
      && Lookup(payload.members, "embeds") == (
           if |title| == 0 && |description| == 0 && |imageUrl| == 0 then None
           else Some(Arr(ECons(Obj(Embed(title, description, imageUrl, ParseColor(draft.color))), ENil))))
  {
    KeyNames();
    var content, title := transform(Trim(draft.content)), transform(Trim(draft.title));
    var description, imageUrl := transform(Trim(draft.description)), transform(Trim(draft.imageUrl));
    var rest := Rest(title, description, imageUrl, ParseColor(draft.color));
    assert OnlyKeys(MNil, {"content", "embeds"}) && OnlyKeys(rest, {"content", "embeds"});
    assert Lookup(MNil, "content").None?;
    assert Lookup(rest, "content").None?;
    FieldLookup(CONTENT, content, rest, "embeds");
    FieldLookup(CONTENT, content, rest, "content");
  }

  // ---------------------------------------------------------------- preview and delivery

  function Preview(draft: EmbedDraft, vars: Vars): Json {
    MessagePayload(draft, s => Replace(s, vars))
  }

  function Delivered(draft: EmbedDraft, vars: Vars): Option<Json> {
    InterpolatePayload(MessagePayload(draft, s => s), vars)
  }

  predicate NoEmptyValue(vars: Vars) {
    forall k <- vars :: vars[k] != ""
  }

  lemma EmptyIffEmpty(s: string, vars: Vars)
    requires NoEmptyValue(vars)
    ensures Replace(s, vars) == "" <==> s == ""
  {
    if s != "" {
      ReplaceUnfolds(s, vars);
      assert Step(s, vars).1 != "";
    }
  }

  lemma NoDollar(s: string, vars: Vars)
    requires '$' !in s
    ensures Replace(s, vars) == s
  {
    ReplaceNothing(s, "", vars);
    assert s + "" == s && Replace("", vars) == "";
  }

  lemma SubstOfMember(key: string, j: Json, rest: Members, vars: Vars)
    requires '$' !in key
    ensures SubstMembers(MCons(key, j, rest), vars) == MCons(key, Subst(j, vars), SubstMembers(rest, vars))
  {
    NoDollar(key, vars);
  }

  lemma SubstOfField(key: string, value: string, rest: Members, vars: Vars)
    requires NoEmptyValue(vars) && '$' !in key
    ensures SubstMembers(Field(key, value, rest), vars) == Field(key, Replace(value, vars), SubstMembers(rest, vars))
  {
    EmptyIffEmpty(value, vars);
    SubstOfMember(key, Str(value), rest, vars);
  }

  lemma SubstOfImage(url: string, rest: Members, vars: Vars)
    requires NoEmptyValue(vars)
    ensures SubstMembers(ImageField(url, rest), vars) == ImageField(Replace(url, vars), SubstMembers(rest, vars))
  {
    EmptyIffEmpty(url, vars);
    SubstOfMember(URL, Str(url), MNil, vars);
    SubstOfMember(IMAGE, Obj(Single(URL, Str(url))), rest, vars);
  }

  lemma SubstOfEmbed(title: string, description: string, imageUrl: string, color: nat, vars: Vars)
    requires NoEmptyValue(vars)
    ensures SubstMembers(Embed(title, description, imageUrl, color), vars) ==
            Embed(Replace(title, vars), Replace(description, vars), Replace(imageUrl, vars), color)
  {
    var last := Single(COLOR, Num(Decimal(color)));
    var image := ImageField(imageUrl, last);
    SubstOfMember(COLOR, Num(Decimal(color)), MNil, vars);
    SubstOfImage(imageUrl, last, vars);
    SubstOfField(DESCRIPTION, description, image, vars);
    SubstOfField(TITLE, title, Field(DESCRIPTION, description, image), vars);
  }

  lemma SubstOfEmbeds(embed: Members, vars: Vars)
    ensures SubstMembers(Embeds(embed), vars) == Embeds(SubstMembers(embed, vars))
  {
    var es := ECons(Obj(embed), ENil);
    assert SubstElems(es, vars) == ECons(Obj(SubstMembers(embed, vars)), ENil);
    SubstOfMember(EMBEDS, Arr(es), MNil, vars);
  }

  lemma SubstOfRest(title: string, description: string, imageUrl: string, color: nat, vars: Vars)
    requires NoEmptyValue(vars)
    ensures SubstMembers(Rest(title, description, imageUrl, color), vars) ==
            Rest(Replace(title, vars), Replace(description, vars), Replace(imageUrl, vars), color)
  {
    EmptyIffEmpty(title, vars);
    EmptyIffEmpty(description, vars);
    EmptyIffEmpty(imageUrl, vars);
    if !(title == "" && description == "" && imageUrl == "") {
      SubstOfEmbed(title, description, imageUrl, color, vars);
      SubstOfEmbeds(Embed(title, description, imageUrl, color), vars);
    }
  }

  lemma SubstOfMessage(content: string, title: string, description: string, imageUrl: string, color: nat, vars: Vars)
    requires NoEmptyValue(vars)
    ensures SubstMembers(Message(content, title, description, imageUrl, color), vars) ==
            Message(Replace(content, vars), Replace(title, vars), Replace(description, vars), Replace(imageUrl, vars), color)
  {
    SubstOfRest(title, description, imageUrl, color, vars);
    SubstOfField(CONTENT, content, Rest(title, description, imageUrl, color), vars);
  }

  lemma WellFormedMessage(content: string, title: string, description: string, imageUrl: string, color: nat)
    ensures WellFormedMembers(Message(content, title, description, imageUrl, color))
  {
    var last := Single(COLOR, Num(Decimal(color)));
    assert WellFormedMembers(last);
    assert WellFormedMembers(Single(URL, Str(imageUrl)));
    assert WellFormedMembers(ImageField(imageUrl, last));
    assert WellFormedMembers(Field(DESCRIPTION, description, ImageField(imageUrl, last)));
    assert WellFormedMembers(Embed(title, description, imageUrl, color));
    assert WellFormedElems(ENil);
    var embeds := ECons(Obj(Embed(title, description, imageUrl, color)), ENil);
    assert WellFormedElems(embeds);
    assert WellFormedMembers(Embeds(Embed(title, description, imageUrl, color)));
  }

  lemma FieldKeys(key: string, value: string, rest: Members, k: string)
    requires k != key
    ensures HasKey(Field(key, value, rest), k) <==> HasKey(rest, k)
  {
  }

  lemma ImageKeys(url: string, rest: Members, k: string)
    requires k != IMAGE
    ensures HasKey(ImageField(url, rest), k) <==> HasKey(rest, k)
  {
  }

  lemma SingleKey(key: string, value: Json, k: string)
    requires k != key
    ensures !HasKey(Single(key, value), k)
  {
  }

  lemma DistinctSingle(key: string, value: Json)
    requires DistinctKeys(value)
    ensures DistinctMembers(Single(key, value))
  {
  }

  lemma DistinctField(key: string, value: string, rest: Members)
    requires DistinctMembers(rest) && !HasKey(rest, key)
    ensures DistinctMembers(Field(key, value, rest))
  {
  }

  lemma DistinctImage(url: string, rest: Members)
    requires DistinctMembers(rest) && !HasKey(rest, IMAGE)
    ensures DistinctMembers(ImageField(url, rest))
  {
    DistinctSingle(URL, Str(url));
  }

  lemma DistinctEmbed(title: string, description: string, imageUrl: string, color: nat)
    ensures DistinctMembers(Embed(title, description, imageUrl, color))
  {
    var last := Single(COLOR, Num(Decimal(color)));
    var image := ImageField(imageUrl, last);
    assert TITLE[0] == 't' && DESCRIPTION[0] == 'd' && IMAGE[0] == 'i' && COLOR[0] == 'c';
    DistinctSingle(COLOR, Num(Decimal(color)));
    SingleKey(COLOR, Num(Decimal(color)), IMAGE);
    SingleKey(COLOR, Num(Decimal(color)), DESCRIPTION);
    SingleKey(COLOR, Num(Decimal(color)), TITLE);
    DistinctImage(imageUrl, last);
    ImageKeys(imageUrl, last, DESCRIPTION);
    ImageKeys(imageUrl, last, TITLE);
    DistinctField(DESCRIPTION, description, image);
    FieldKeys(DESCRIPTION, description, image, TITLE);
    DistinctField(TITLE, title, Field(DESCRIPTION, description, image));
  }

  lemma DistinctRest(title: string, description: string, imageUrl: string, color: nat)
    ensures DistinctMembers(Rest(title, description, imageUrl, color)) && !HasKey(Rest(title, description, imageUrl, color), CONTENT)
  {
    var embed := Embed(title, description, imageUrl, color);
    DistinctEmbed(title, description, imageUrl, color);
    assert DistinctElems(ENil);
    assert DistinctElems(ECons(Obj(embed), ENil));
    DistinctSingle(EMBEDS, Arr(ECons(Obj(embed), ENil)));
    assert EMBEDS[0] == 'e' && CONTENT[0] == 'c';
    SingleKey(EMBEDS, Arr(ECons(Obj(embed), ENil)), CONTENT);
  }

  lemma DistinctMessage(content: string, title: string, description: string, imageUrl: string, color: nat)
    ensures DistinctKeys(Obj(Message(content, title, description, imageUrl, color)))
  {
    DistinctRest(title, description, imageUrl, color);
    DistinctField(CONTENT, content, Rest(title, description, imageUrl, color));
  }

  /** What is previewed is what is delivered, with the same optional fields. */
  lemma PreviewIsDelivered(draft: EmbedDraft, vars: Vars)
    requires PlainVars(vars) && NoEmptyValue(vars)
    ensures Delivered(draft, vars) == Some(Preview(draft, vars))
  {
    var content, title, description := Trim(draft.content), Trim(draft.title), Trim(draft.description);
    var imageUrl, color := Trim(draft.imageUrl), ParseColor(draft.color);
    WellFormedMessage(content, title, description, imageUrl, color);
    InterpolateIsSubst(MessagePayload(draft, s => s), vars);
    SubstOfMessage(content, title, description, imageUrl, color, vars);
    DistinctMessage(Replace(content, vars), Replace(title, vars), Replace(description, vars), Replace(imageUrl, vars), color);
  }

  // ---------------------------------------------------------------- no other variables will do

  function ContentOnly(content: string): EmbedDraft {
    EmbedDraft(content, "", "", "", "")
  }

  lemma TrimOfHole(k: string)
    requires IsWord(k)
    ensures Trim(Hole(k)) == Hole(k)
  {
  }

  lemma ContentMessage(content: string, transform: string -> string)
    requires Trim(content) == content && transform("") == ""
    ensures MessagePayload(ContentOnly(content), transform) == Obj(Field(CONTENT, transform(content), MNil))
  {
    assert Trim("") == "";
  }

  /** The text of a one-member object, before and after the characters of its string. */
  function Before(key: string): string {
    "{" + Quote(key) + ":" + "\""
  }

  const AFTER := "\"}"

  lemma OneMemberText(key: string, content: string)
    ensures Stringify(Obj(Single(key, Str(content)))) == Before(key) + Escape(content) + AFTER
  {
    var e, q, k := Escape(content), "\"", Quote(key);
    assert StringifyMembers(Single(key, Str(content))) == k + ":" + (q + e + q);
    assert "{" + (k + ":" + (q + e + q)) + "}" == "{" + k + ":" + q + e + (q + "}");
  }

  lemma NoDollarBefore()
    ensures '$' !in Before(CONTENT) && '$' !in AFTER
  {
    EscapeOfPlain(CONTENT);
    assert '$' !in CONTENT;
    assert '$' !in Quote(CONTENT);
  }

  lemma NoDollarAround(vars: Vars)
    ensures Replace(Before(CONTENT), vars) == Before(CONTENT) && Replace(AFTER, vars) == AFTER
  {
    NoDollarBefore();
    NoDollar(Before(CONTENT), vars);
    NoDollar(AFTER, vars);
  }

  lemma ReplaceAround(before: string, k: string, after: string, vars: Vars)
    requires IsWord(k) && k in vars
    requires Replace(before, vars) == before && Replace(after, vars) == after
    ensures Replace(before + Escape(Hole(k)) + after, vars) == before + vars[k] + after
  {
    HoleIsPlain(k);
    EscapeOfPlain(Hole(k));
    HoleIsReplaced(before, k, after, vars);
  }

  lemma DeliveredText(k: string, vars: Vars)
    requires IsWord(k) && k in vars
    ensures Delivered(ContentOnly(Hole(k)), vars) == Parse(Before(CONTENT) + vars[k] + AFTER)
  {
    TrimOfHole(k);
    ContentMessage(Hole(k), s => s);
    OneMemberText(CONTENT, Hole(k));
    NoDollarAround(vars);
    ReplaceAround(Before(CONTENT), k, AFTER, vars);
  }

  lemma HoleIsPlain(k: string)
    requires IsWord(k)
    ensures Plain(Hole(k))
  {
  }

  lemma HoleAlone(k: string, vars: Vars)
    requires IsWord(k) && k in vars
    ensures Replace(Hole(k), vars) == vars[k]
  {
    HoleIsReplaced("", k, "", vars);
    EmptyAround(Hole(k));
    EmptyAround(vars[k]);
  }

  lemma EmptyAround(s: string)
    ensures "" + s + "" == s
  {
  }

  lemma PreviewOfHole(k: string, vars: Vars)
    requires IsWord(k) && k in vars
    ensures Preview(ContentOnly(Hole(k)), vars) == Obj(Field(CONTENT, vars[k], MNil))
  {
    TrimOfHole(k);
    HoleAlone(k, vars);
    assert Replace("", vars) == "";
    ContentMessage(Hole(k), s => Replace(s, vars));
  }

  lemma OneMemberSplit(key: string, v: string)
    ensures var text := Before(key) + v + AFTER; var afterKey := ":" + ("\"" + (v + AFTER));
      text[0] == '{' && text[1] == '"' && text[1..] == Quote(key) + afterKey
      && afterKey[1..][0] == '"' && afterKey[1..][1..] == v + AFTER
  {
    var q, k := "\"", Quote(key);
    assert Before(key) + v + AFTER == "{" + (k + (":" + (q + (v + AFTER))));
    assert k[0] == '"';
  }

  lemma MemberOfText(key: string, v: string)
    ensures ParseMember((Before(key) + v + AFTER)[1..]) ==
      match ParseChars(v + AFTER)
      case Some((w, rest)) => Some((key, Str(w), rest))
      case None => None
  {
    var value := "\"" + (v + AFTER);
    OneMemberSplit(key, v);
    ValueOfText(v + AFTER);
    MemberOfQuote(key, ":" + value, value);
  }

  lemma MemberOfQuote(key: string, afterKey: string, value: string)
    requires afterKey == ":" + value
    ensures ParseMember(Quote(key) + afterKey) ==
      match ParseValue(value)
      case Some((j, rest)) => Some((key, j, rest))
      case None => None
  {
    var member := Quote(key) + afterKey;
    StringRoundTrip(key, afterKey);
    assert member[0] == '"' && member[1..] == Escape(key) + "\"" + afterKey;
    assert afterKey[1..] == value;
  }

  lemma ValueOfText(s: string)
    ensures ParseValue("\"" + s) ==
      match ParseChars(s) case Some((w, rest)) => Some((Str(w), rest)) case None => None
  {
    var t := "\"" + s;
    assert t[0] == '"' && t[1..] == s;
  }

  predicate HasString(ms: Members, x: string) {
    ms.MCons? && (ms.value == Str(x) || HasString(ms.rest, x))
  }

  lemma ValueFits(s: string)
    ensures match ParseValue(s)
      case Some((Str(x), rest)) => |x| < |s|
      case _ => true
  {
    if s != "" && s[0] == '"' {
      assert s == "\"" + s[1..];
      ValueOfText(s[1..]);
      LiteralLength(s[1..]);
    } else {
      NotAString(s);
    }
  }

  lemma NotAString(s: string)
    requires s == "" || s[0] != '"'
    ensures ParseValue(s).Some? ==> !ParseValue(s).value.0.Str?
  {
  }

  lemma MemberFits(s: string)
    ensures match ParseMember(s)
      case Some((_, Str(x), rest)) => |x| < |s|
      case _ => true
  {
    if s != "" && s[0] == '"' {
      match ParseChars(s[1..]) {
        case Some((k, afterKey)) =>
          if afterKey != "" { ValueFits(afterKey[1..]); }
        case None =>
      }
    }
  }

  /** A string value is shorter than the text of the members it stands in. */
  lemma {:induction false} StringsFit(s: string, x: string)
    requires ParseMembers(s).Some? && HasString(ParseMembers(s).value.0, x)
    ensures |x| < |s|
    decreases |s|
  {
    MemberFits(s);
    match ParseMember(s)
    case Some((k, j, rest)) =>
      if j != Str(x) {
        StringsFit(rest[1..], x);
      }
  }

  function Count(ms: Members): nat {
    if ms.MNil? then 0 else 1 + Count(ms.rest)
  }

  lemma {:induction false} PutCount(ms: Members, key: string, value: Json)
    ensures Count(Put(ms, key, value)) >= Count(ms)
  {
    if ms.MCons? { PutCount(ms.rest, key, value); }
  }

  lemma {:induction false} CountGrows(before: Members, ms: Members)
    ensures Count(CanonicalMembers(before, ms)) >= Count(before)
    decreases ms
  {
    if ms.MCons? {
      PutCount(before, ms.key, Canonical(ms.value));
      CountGrows(Put(before, ms.key, Canonical(ms.value)), ms.rest);
    }
  }

  lemma PutOnSingle(key: string, first: Json, k: string, value: Json)
    ensures Put(Single(key, first), k, value) ==
      if k == key then Single(key, value) else MCons(key, first, Single(k, value))
  {
  }

  /** When members set on an object with one key leave it with one key, its value is one of theirs. */
  lemma {:induction false} LastWins(key: string, first: Json, ms: Members, v: string)
    requires ms.MCons? && CanonicalMembers(Single(key, first), ms) == Single(key, Str(v))
    ensures HasString(ms, v)
    decreases ms
  {
    var value := Canonical(ms.value);
    PutOnSingle(key, first, ms.key, value);
    CountGrows(Put(Single(key, first), ms.key, value), ms.rest);
    if ms.rest.MCons? {
      LastWins(key, value, ms.rest, v);
    }
  }

  lemma ObjectParsed(text: string, ms: Members) returns (raw: Members)
    requires |text| >= 2 && text[0] == '{' && text[1] == '"' && Parse(text) == Some(Obj(ms))
    ensures ParseMembers(text[1..]) == Some((raw, "")) && CanonicalMembers(MNil, raw) == ms
  {
    raw := ParseMembers(text[1..]).value.0;
  }

  /** Text that overwrites its own member with a later one is longer than what that one holds. */
  lemma NoLaterMember(key: string, w: string, rest: string, later: Members, v: string)
    requires ParseChars(v + AFTER) == Some((w, rest)) && rest != ""
    requires later.MCons? && ParseMembers(rest[1..]) == Some((later, ""))
    ensures CanonicalMembers(Single(key, Str(w)), later) != Single(key, Str(v))
  {
    LiteralLength(v + AFTER);
    if CanonicalMembers(Single(key, Str(w)), later) == Single(key, Str(v)) {
      LastWins(key, Str(w), later, v);
      StringsFit(rest[1..], v);
    }
  }

  lemma FirstOfMembers(s: string, k: string, j: Json, rest: string)
    requires ParseMember(s) == Some((k, j, rest)) && ParseMembers(s).Some?
    ensures var (raw, end) := ParseMembers(s).value;
      rest != "" && raw.MCons? && raw.key == k && raw.value == j
      && (raw.rest.MNil? ==> end == rest[1..])
      && (raw.rest.MCons? ==> ParseMembers(rest[1..]) == Some((raw.rest, end)))
  {
  }

  lemma OneMemberParsed(key: string, v: string)
    requires Parse(Before(key) + v + AFTER) == Some(Obj(Single(key, Str(v))))
    ensures ParseChars(v + AFTER).Some? && ParseChars(v + AFTER).value.0 == v
    ensures |ParseChars(v + AFTER).value.1| == 1
  {
    var text := Before(key) + v + AFTER;
    OneMemberSplit(key, v);
    MemberOfText(key, v);
    var raw := ObjectParsed(text, Single(key, Str(v)));
    var (w, rest) := ParseChars(v + AFTER).value;
    FirstOfMembers(text[1..], key, Str(w), rest);
    assert CanonicalMembers(MNil, raw) == CanonicalMembers(Single(key, Str(w)), raw.rest);
    if raw.rest.MCons? {
      NoLaterMember(key, w, rest, raw.rest, v);
    }
  }

  /** With word-named variables, every draft is delivered as previewed exactly when every
      value is non-empty and needs no escaping. */
  lemma PreviewIsDeliveredIff(vars: Vars)
    requires forall k <- vars :: IsWord(k)
    ensures (forall draft :: Delivered(draft, vars) == Some(Preview(draft, vars)))
      <==> PlainVars(vars) && NoEmptyValue(vars)
  {
    if PlainVars(vars) && NoEmptyValue(vars) {
      forall draft ensures Delivered(draft, vars) == Some(Preview(draft, vars)) {
        PreviewIsDelivered(draft, vars);
      }
    }
    if forall draft :: Delivered(draft, vars) == Some(Preview(draft, vars)) {
      forall k <- vars ensures Plain(vars[k]) && vars[k] != "" {
        ValueMustBeUsable(k, vars);
      }
    }
  }

  lemma EmptyValueLeavesMember()
    ensures Parse(Before(CONTENT) + "" + AFTER) == Some(Obj(Single(CONTENT, Str(""))))
  {
    OneMemberText(CONTENT, "");
    assert Escape("") == "";
    RoundTrip(Obj(Single(CONTENT, Str(""))));
  }

  lemma ParsedAsItself(v: string)
    requires Parse(Before(CONTENT) + v + AFTER) == Some(Obj(Single(CONTENT, Str(v))))
    ensures Plain(v)
  {
    OneMemberParsed(CONTENT, v);
    LiteralLength(v + AFTER);
  }

  lemma ValueMustBeUsable(k: string, vars: Vars)
    requires IsWord(k) && k in vars
    requires Delivered(ContentOnly(Hole(k)), vars) == Some(Preview(ContentOnly(Hole(k)), vars))
    ensures Plain(vars[k]) && vars[k] != ""
  {
    DeliveredText(k, vars);
    PreviewOfHole(k, vars);
    if vars[k] == "" {
      EmptyValueLeavesMember();
    } else {
      ParsedAsItself(vars[k]);
    }
  }
}

/** The to-allocate annotation: one slot of devices per container, "uuid,type,mem,cores:" each, ";" after every slot. */
module DeviceAnnotation {
  import opened Text
  import opened Wrappers

  type Int32 = n: int | -IntMax(32) - 1 <= n <= IntMax(32) witness 0

  datatype ContainerDevice = ContainerDevice(uuid: string, typ: string, usedmem: Int32, usedcores: Int32)

  /** The devices of one container. */
  type Slot = seq<ContainerDevice>

  // ---------- encoding ----------

  function DeviceText(d: ContainerDevice): string {
    d.uuid + "," + d.typ + "," + Itoa(d.usedmem) + "," + Itoa(d.usedcores)
  }

  function SlotText(slot: Slot): string {
    if slot == [] then "" else SlotText(slot[..|slot| - 1]) + DeviceText(slot[|slot| - 1]) + ":"
  }

  function PodText(slots: seq<Slot>): string {
    if slots == [] then "" else PodText(slots[..|slots| - 1]) + SlotText(slots[|slots| - 1]) + ";"
  }

  method EncodeContainerDevices(cd: Slot) returns (tmp: string)
    ensures tmp == SlotText(cd)
  {
    tmp := "";
    for i := 0 to |cd|
      invariant tmp == SlotText(cd[..i])
    {
      assert cd[..i + 1][..i] == cd[..i];
      tmp := tmp + cd[i].uuid + "," + cd[i].typ + "," + Itoa(cd[i].usedmem) + "," + Itoa(cd[i].usedcores) + ":";
      DeviceTextAppends(SlotText(cd[..i]), cd[i]);
    }
    assert cd[..|cd|] == cd;
  }

  lemma DeviceTextAppends(s: string, d: ContainerDevice)
    ensures s + d.uuid + "," + d.typ + "," + Itoa(d.usedmem) + "," + Itoa(d.usedcores) + ":" == s + DeviceText(d) + ":"
  {
  }

  method EncodePodSingleDevice(pd: seq<Slot>) returns (res: string)
    ensures res == PodText(pd)
  {
    res := "";
    for i := 0 to |pd|
      invariant res == PodText(pd[..i])
    {
      assert pd[..i + 1][..i] == pd[..i];
      var text := EncodeContainerDevices(pd[i]);
      res := res + text + ";";
    }
    assert pd[..|pd|] == pd;
  }

  // ---------- decoding ----------

  /** What one ":"-separated part adds to a slot: nothing when it holds no comma, a device, or a format error (None). */
  function DecodePart(val: string): Option<Slot> {
    if ',' !in val then Some([]) else
    var fields := Split(val, ',');
    if |fields| < 4 then None else
    var mem, cores := ParseInt(fields[2], 32), ParseInt(fields[3], 32);
    if mem.None? || cores.None? then None else Some([ContainerDevice(fields[0], fields[1], mem.value, cores.value)])
  }

  function DecodeParts(parts: seq<string>): Option<Slot> {
    if parts == [] then Some([]) else
    var front, last := DecodeParts(parts[..|parts| - 1]), DecodePart(parts[|parts| - 1]);
    if front.None? || last.None? then None else Some(front.value + last.value)
  }

  function DecodeSlot(str: string): Option<Slot> {
    if str == "" then Some([]) else DecodeParts(Split(str, ':'))
  }

  function DecodeSlots(strs: seq<string>): Option<seq<Slot>> {
    if strs == [] then Some([]) else
    var front, last := DecodeSlots(strs[..|strs| - 1]), DecodeSlot(strs[|strs| - 1]);
    if front.None? || last.None? then None else Some(front.value + [last.value])
  }

  /** The slots an annotation value denotes, None when it is malformed. */
  function DecodePod(str: string): Option<seq<Slot>> {
    DecodeSlots(Split(TrimSuffix(str, ';'), ';'))
  }

  method DecodeContainerDevices(str: string) returns (r: Result<Slot>)
    ensures r.Failure? <==> DecodeSlot(str).None?
    ensures r.Success? ==> r.value == DecodeSlot(str).value
  {
    if |str| == 0 { return Success([]); }
    var cd := Split(str, ':');
    hide Split, ParseInt;
    var contdev: Slot := [];
    for i := 0 to |cd|
      invariant DecodeParts(cd[..i]) == Some(contdev)
    {
      var val := cd[i];
      DecodePartsAppend(cd[..i], val);
      assert cd[..i] + [val] == cd[..i + 1];
      assert contdev + [] == contdev;
      if ',' in val {
        var tmpstr := Split(val, ',');
        if |tmpstr| < 4 {
          OneBadPart(cd, i);
          return Failure("pod annotation format error; information missing, please do not use nodeName field in task");
        }
        var devmem := ParseInt(tmpstr[2], 32);
        if devmem.None? { OneBadPart(cd, i); return Failure("parse device memory"); }
        var devcores := ParseInt(tmpstr[3], 32);
        if devcores.None? { OneBadPart(cd, i); return Failure("parse device cores"); }
        contdev := contdev + [ContainerDevice(tmpstr[0], tmpstr[1], devmem.value, devcores.value)];
      }
    }
    assert cd[..|cd|] == cd;
    return Success(contdev);
  }

  /**
   * DecodePodDevices for the one registered device type: annotation is the value under its key, None when the key
   * is missing; the result is None when the type has no entry.
   */
  method DecodePodDevices(annotation: Option<string>) returns (r: Result<Option<seq<Slot>>>)
    ensures annotation.None? ==> r == Success(None)
    ensures annotation.Some? ==>
      (r.Failure? <==> DecodePod(annotation.value).None?) && (r.Success? ==> r.value == DecodePod(annotation.value))
  {
    if annotation.None? { return Success(None); }
    hide Split, DecodeSlot;
    var strs := Split(TrimSuffix(annotation.value, ';'), ';');
    var pd: seq<Slot> := [];
    for i := 0 to |strs|
      invariant DecodeSlots(strs[..i]) == Some(pd)
    {
      DecodeSlotsAppend(strs[..i], strs[i]);
      assert strs[..i] + [strs[i]] == strs[..i + 1];
      var cd := DecodeContainerDevices(strs[i]);
      if cd.Failure? { OneBadSlot(strs, i); return Failure(cd.error); }
      pd := pd + [cd.value];
    }
    assert strs[..|strs|] == strs;
    return Success(Some(pd));
  }

  lemma DecodePartsAppend(parts: seq<string>, part: string)
    ensures var front, last := DecodeParts(parts), DecodePart(part);
      DecodeParts(parts + [part]) == if front.None? || last.None? then None else Some(front.value + last.value)
  {
    hide DecodePart;
    assert (parts + [part])[..|parts|] == parts;
  }

  lemma DecodeSlotsAppend(strs: seq<string>, str: string)
    ensures var front, last := DecodeSlots(strs), DecodeSlot(str);
      DecodeSlots(strs + [str]) == if front.None? || last.None? then None else Some(front.value + [last.value])
  {
    hide DecodeSlot;
    assert (strs + [str])[..|strs|] == strs;
  }

  lemma {:induction false} OneBadPart(parts: seq<string>, k: nat)
    requires k < |parts| && DecodePart(parts[k]).None?
    ensures DecodeParts(parts).None?
  {
    if k < |parts| - 1 { OneBadPart(parts[..|parts| - 1], k); }
  }

  lemma {:induction false} OneBadSlot(strs: seq<string>, k: nat)
    requires k < |strs| && DecodeSlot(strs[k]).None?
    ensures DecodeSlots(strs).None?
  {
    if k < |strs| - 1 { OneBadSlot(strs[..|strs| - 1], k); }
  }

  // ---------- the codec laws ----------

  predicate IsSeparator(c: char) {
    c == ',' || c == ':' || c == ';'
  }

  predicate Plain(s: string) {
    forall i :: 0 <= i < |s| ==> !IsSeparator(s[i])
  }

  /** UUID and type hold no separator: the format has no escapes. */
  predicate Encodable(d: ContainerDevice) {
    Plain(d.uuid) && Plain(d.typ)
  }

  predicate EncodableSlots(slots: seq<Slot>) {
    forall i, j :: 0 <= i < |slots| && 0 <= j < |slots[i]| ==> Encodable(slots[i][j])
  }

  lemma PlainHasNone(s: string)
    requires Plain(s)
    ensures ',' !in s && ':' !in s && ';' !in s
  {
  }

  lemma Int32Text(n: Int32)
    ensures Plain(Itoa(n)) && ParseInt(Itoa(n), 32) == Some(n)
  {
    ItoaChars(n);
    ItoaRoundTrip(n, 32);
  }

  lemma DeviceRoundTrip(d: ContainerDevice)
    requires Encodable(d)
    ensures ':' !in DeviceText(d) && ';' !in DeviceText(d)
    ensures DecodePart(DeviceText(d)) == Some([d])
  {
    hide Itoa, ParseInt, IntMax, Plain, Split;
    var mem, cores := Itoa(d.usedmem), Itoa(d.usedcores);
    Int32Text(d.usedmem);
    Int32Text(d.usedcores);
    PlainHasNone(d.uuid);
    PlainHasNone(d.typ);
    PlainHasNone(mem);
    PlainHasNone(cores);
    FourFields(d.uuid, d.typ, mem, cores);
  }

  lemma FourFields(a: string, b: string, c: string, d: string)
    requires ',' !in a && ',' !in b && ',' !in c && ',' !in d
    ensures ',' in a + "," + b + "," + c + "," + d
    ensures Split(a + "," + b + "," + c + "," + d, ',') == [a, b, c, d]
  {
    hide Split;
    var cd := c + [','] + d;
    var bcd := b + [','] + cd;
    var all := a + [','] + bcd;
    SplitPlain(d, ',');
    SplitHead(c, ',', d);
    SplitHead(b, ',', cd);
    SplitHead(a, ',', bcd);
    assert a + "," + b + "," + c + "," + d == all;
    assert all[|a|] == ',';
  }

  lemma {:induction false} JoinAppend(parts: seq<string>, last: string, sep: char)
    requires parts != []
    ensures Join(parts + [last], sep) == Join(parts, sep) + [sep] + last
  {
    var all := parts + [last];
    if |parts| == 1 {
      assert all[1..] == [last];
    } else {
      JoinAppend(parts[1..], last, sep);
      assert all[1..] == parts[1..] + [last];
    }
  }

  /**
   * The format of a device: its comma-separated fields are UUID, type, memory and cores, and any further ones are
   * ignored. A text without a comma is skipped; one with too few fields, or without 32-bit numbers, is refused.
   */
  lemma DeviceFormat(fields: seq<string>)
    requires fields != [] && forall i :: 0 <= i < |fields| ==> Plain(fields[i])
    ensures |fields| == 1 ==> DecodePod(Join(fields, ',') + ":;") == Some([[]])
    ensures 1 < |fields| < 4 ==> DecodePod(Join(fields, ',') + ":;").None?
    ensures |fields| >= 4 && (ParseInt(fields[2], 32).None? || ParseInt(fields[3], 32).None?) ==>
      DecodePod(Join(fields, ',') + ":;").None?
    ensures |fields| >= 4 && ParseInt(fields[2], 32).Some? && ParseInt(fields[3], 32).Some? ==>
      var slots := DecodePod(Join(fields, ',') + ":;");
      && slots.Some? && |slots.value| == 1 && |slots.value[0]| == 1
      && slots.value[0][0].uuid == fields[0] && slots.value[0][0].typ == fields[1]
      && slots.value[0][0].usedmem == ParseInt(fields[2], 32).value
      && slots.value[0][0].usedcores == ParseInt(fields[3], 32).value
  {
    hide Plain, Split, Join, ParseInt;
    var text := Join(fields, ',');
    forall i | 0 <= i < |fields| ensures ',' !in fields[i] && ':' !in fields[i] && ';' !in fields[i] { PlainHasNone(fields[i]); }
    JoinAvoids(fields, ',', ':');
    JoinAvoids(fields, ',', ';');
    SplitJoin(fields, ',');
    SplitFindsSeparator(text, ',');
    DecodeOnePart(text);
  }

  /** A Pod's annotation with one text in one slot. */
  lemma DecodeOnePart(text: string)
    requires ':' !in text && ';' !in text
    ensures var slot := DecodePart(text); DecodePod(text + ":;") == if slot.None? then None else Some([slot.value])
  {
    hide DecodePart, DecodeSlot, DecodeSlots, Split;
    SlotOfPart(text);
    var slotText := text + ":";
    assert text + ":;" == slotText + ";";
    assert TrimSuffix(slotText + ";", ';') == slotText;
    SplitPlain(slotText, ';');
    SlotsOfOne(slotText);
  }

  lemma SlotsOfOne(str: string)
    ensures var slot := DecodeSlot(str); DecodeSlots([str]) == if slot.None? then None else Some([slot.value])
  {
    hide DecodeSlot;
    assert [str][..0] == [];
    if DecodeSlot(str).Some? { assert [] + [DecodeSlot(str).value] == [DecodeSlot(str).value]; }
  }

  lemma SlotOfPart(text: string)
    requires ':' !in text
    ensures DecodeSlot(text + ":") == DecodePart(text)
  {
    EmptyPart();
    hide DecodePart, Split;
    assert text + ":" == text + [':'] + "";
    SplitHead(text, ':', "");
    SplitPlain("", ':');
    assert [text] + [""] == [text, ""];
    PartsOfTwo(text);
  }

  lemma PartsOfTwo(text: string)
    requires DecodePart("") == Some([])
    ensures DecodeParts([text, ""]) == DecodePart(text)
  {
    hide DecodePart;
    DecodePartsAppend([], text);
    DecodePartsAppend([text], "");
    assert [] + [text] == [text] && [text] + [""] == [text, ""];
    var slot := DecodePart(text);
    if slot.Some? { assert [] + slot.value == slot.value && slot.value + [] == slot.value; }
  }

  lemma EmptyPart()
    ensures DecodePart("") == Some([])
  {
  }

  function DeviceTexts(slot: Slot): seq<string> {
    seq(|slot|, i requires 0 <= i < |slot| => DeviceText(slot[i]))
  }

  /** A non-empty slot is written as its device texts and a last empty part, joined by ":". */
  lemma {:induction false} SlotTextIsJoin(slot: Slot)
    requires slot != []
    ensures SlotText(slot) == Join(DeviceTexts(slot) + [""], ':')
  {
    hide DeviceText;
    var front, last := slot[..|slot| - 1], slot[|slot| - 1];
    assert DeviceTexts(slot) == DeviceTexts(front) + [DeviceText(last)];
    JoinAppend(DeviceTexts(slot), "", ':');
    if front == [] {
      assert DeviceTexts(front) == [];
      assert SlotText(front) == "";
    } else {
      SlotTextIsJoin(front);
      JoinAppend(DeviceTexts(front), "", ':');
      JoinAppend(DeviceTexts(front), DeviceText(last), ':');
      assert SlotText(front) == Join(DeviceTexts(front), ':') + ":";
    }
  }

  lemma {:induction false} DeviceTextsDecode(slot: Slot)
    requires forall i :: 0 <= i < |slot| ==> Encodable(slot[i])
    ensures DecodeParts(DeviceTexts(slot)) == Some(slot)
  {
    hide DecodePart, DeviceText, Encodable;
    if slot == [] {
      assert DeviceTexts(slot) == [];
    } else {
      var front, last := slot[..|slot| - 1], slot[|slot| - 1];
      DeviceTextsDecode(front);
      DeviceRoundTrip(last);
      assert DeviceTexts(slot) == DeviceTexts(front) + [DeviceText(last)];
      DecodePartsAppend(DeviceTexts(front), DeviceText(last));
      assert slot == front + [last];
    }
  }

  lemma SlotTextParts(slot: Slot)
    requires slot != [] && forall i :: 0 <= i < |slot| ==> Encodable(slot[i])
    ensures SlotText(slot) != "" && ';' !in SlotText(slot)
    ensures Split(SlotText(slot), ':') == DeviceTexts(slot) + [""]
  {
    hide DecodePart, DeviceText, Encodable, Split, Join;
    var texts := DeviceTexts(slot) + [""];
    SlotTextIsJoin(slot);
    forall i | 0 <= i < |texts| ensures ':' !in texts[i] && ';' !in texts[i] {
      if i < |slot| { DeviceRoundTrip(slot[i]); }
    }
    SplitJoin(texts, ':');
    JoinAvoids(texts, ':', ';');
    assert SlotText(slot)[|SlotText(slot)| - 1] == ':';
  }

  lemma SlotRoundTrip(slot: Slot)
    requires forall i :: 0 <= i < |slot| ==> Encodable(slot[i])
    ensures ';' !in SlotText(slot)
    ensures DecodeSlot(SlotText(slot)) == Some(slot)
  {
    hide DeviceText, Encodable, Split;
    if slot != [] {
      SlotTextParts(slot);
      DeviceTextsDecode(slot);
      DecodePartsAppend(DeviceTexts(slot), "");
      assert slot + [] == slot;
    }
  }

  function SlotTexts(slots: seq<Slot>): seq<string> {
    seq(|slots|, i requires 0 <= i < |slots| => SlotText(slots[i]))
  }

  lemma {:induction false} PodTextIsJoin(slots: seq<Slot>)
    requires slots != []
    ensures PodText(slots) == Join(SlotTexts(slots), ';') + ";"
  {
    hide SlotText;
    var front, last := slots[..|slots| - 1], slots[|slots| - 1];
    assert SlotTexts(slots) == SlotTexts(front) + [SlotText(last)];
    if front == [] {
      assert SlotTexts(front) == [];
      assert PodText(front) == "";
    } else {
      PodTextIsJoin(front);
      JoinAppend(SlotTexts(front), SlotText(last), ';');
    }
  }

  lemma {:induction false} SlotTextsDecode(slots: seq<Slot>)
    requires EncodableSlots(slots)
    ensures DecodeSlots(SlotTexts(slots)) == Some(slots)
  {
    hide DecodeSlot, SlotText, Encodable;
    if slots == [] {
      assert SlotTexts(slots) == [];
    } else {
      var front, last := slots[..|slots| - 1], slots[|slots| - 1];
      SlotTextsDecode(front);
      SlotRoundTrip(last);
      assert SlotTexts(slots) == SlotTexts(front) + [SlotText(last)];
      DecodeSlotsAppend(SlotTexts(front), SlotText(last));
      assert slots == front + [last];
    }
  }

  lemma EncodedDecodes(slots: seq<Slot>)
    requires slots != [] && EncodableSlots(slots)
    ensures DecodePod(PodText(slots)) == Some(slots)
  {
    hide DecodeSlots, SlotText, Encodable, Split, Join;
    var texts := SlotTexts(slots);
    PodTextIsJoin(slots);
    forall i | 0 <= i < |texts| ensures ';' !in texts[i] { SlotRoundTrip(slots[i]); }
    SplitJoin(texts, ';');
    assert TrimSuffix(PodText(slots), ';') == Join(texts, ';');
    SlotTextsDecode(slots);
  }

  /** Whatever decodes has at least one slot, and its UUIDs and types hold no separator. */
  lemma DecodedIsEncodable(str: string)
    requires DecodePod(str).Some?
    ensures DecodePod(str).value != [] && EncodableSlots(DecodePod(str).value)
  {
    hide DecodeSlots;
    var strs := Split(TrimSuffix(str, ';'), ';');
    JoinSplit(TrimSuffix(str, ';'), ';');
    DecodedSlotsPlain(strs);
  }

  lemma {:induction false} DecodedSlotsPlain(strs: seq<string>)
    requires DecodeSlots(strs).Some? && forall i :: 0 <= i < |strs| ==> ';' !in strs[i]
    ensures |DecodeSlots(strs).value| == |strs| && EncodableSlots(DecodeSlots(strs).value)
  {
    hide DecodeSlot, Encodable;
    if strs != [] {
      DecodedSlotsPlain(strs[..|strs| - 1]);
      DecodedSlotPlain(strs[|strs| - 1]);
    }
  }

  lemma DecodedSlotPlain(str: string)
    requires DecodeSlot(str).Some? && ';' !in str
    ensures forall j :: 0 <= j < |DecodeSlot(str).value| ==> Encodable(DecodeSlot(str).value[j])
  {
    hide DecodePart, Encodable;
    if str != "" {
      var parts := Split(str, ':');
      JoinSplit(str, ':');
      forall i | 0 <= i < |parts| ensures ':' !in parts[i] && ';' !in parts[i] {
        if ';' in parts[i] { SplitChars(str, ':', i, ';'); }
      }
      DecodedPartsPlain(parts);
    }
  }

  lemma {:induction false} DecodedPartsPlain(parts: seq<string>)
    requires DecodeParts(parts).Some? && forall i :: 0 <= i < |parts| ==> ':' !in parts[i] && ';' !in parts[i]
    ensures forall j :: 0 <= j < |DecodeParts(parts).value| ==> Encodable(DecodeParts(parts).value[j])
  {
    hide DecodePart, Encodable;
    if parts != [] {
      DecodedPartsPlain(parts[..|parts| - 1]);
      DecodedPartPlain(parts[|parts| - 1]);
    }
  }

  lemma DecodedPartPlain(val: string)
    requires DecodePart(val).Some? && ':' !in val && ';' !in val
    ensures forall j :: 0 <= j < |DecodePart(val).value| ==> Encodable(DecodePart(val).value[j])
  {
    if ',' in val {
      var fields := Split(val, ',');
      JoinSplit(val, ',');
      FieldPlain(val, 0);
      FieldPlain(val, 1);
    }
  }

  lemma FieldPlain(val: string, k: nat)
    requires k < |Split(val, ',')| && ':' !in val && ';' !in val
    ensures Plain(Split(val, ',')[k])
  {
    var f := Split(val, ',')[k];
    JoinSplit(val, ',');
    forall i | 0 <= i < |f| ensures !IsSeparator(f[i]) {
      assert f[i] in f;
      SplitChars(val, ',', k, f[i]);
    }
  }

  /**
   * Encode-then-decode is the identity exactly on the slot lists that have a slot and whose UUIDs and types hold
   * no separator. An empty list reads back as one empty slot.
   */
  lemma RoundTrip(slots: seq<Slot>)
    ensures DecodePod(PodText(slots)) == Some(slots) <==> slots != [] && EncodableSlots(slots)
  {
    hide DecodePod, PodText, EncodableSlots;
    if slots != [] && EncodableSlots(slots) { EncodedDecodes(slots); }
    if DecodePod(PodText(slots)) == Some(slots) { DecodedIsEncodable(PodText(slots)); }
  }

  /** Whatever string was accepted, re-encoding its slots decodes to the same slots. */
  lemma Stable(str: string)
    requires DecodePod(str).Some?
    ensures DecodePod(PodText(DecodePod(str).value)) == DecodePod(str)
  {
    DecodedIsEncodable(str);
    EncodedDecodes(DecodePod(str).value);
  }
}

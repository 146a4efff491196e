/** How long event and report payloads get. */
module Sizes {
  import opened Bytes
  import opened Errors
  import Schema
  import Tlv
  import opened Framing
  import opened Session
  import opened Orchestration
  import opened Accounting

  lemma EmptySize()
    ensures |Tlv.FieldsBytes([])| == 0
  {
  }

  lemma SizeSnoc(fs: seq<Tlv.Field>, f: Tlv.Field)
    ensures |Tlv.FieldsBytes(fs + [f])| == |Tlv.FieldsBytes(fs)| + 7 + |f.value|
  {
    assert (fs + [f])[..|fs|] == fs;
  }

  lemma FourSize(a: Tlv.Field, b: Tlv.Field, c: Tlv.Field, d: Tlv.Field)
    ensures |Tlv.FieldsBytes([a, b, c, d])| == 28 + |a.value| + |b.value| + |c.value| + |d.value|
  {
    hide Tlv.FieldsBytes;
    EmptySize();
    SizeSnoc([], a);
    SizeSnoc([a], b);
    SizeSnoc([a, b], c);
    SizeSnoc([a, b, c], d);
    assert [] + [a] == [a] && [a] + [b] == [a, b] && [a, b] + [c] == [a, b, c] && [a, b, c] + [d] == [a, b, c, d];
  }

  function OptionalLength(v: bytes): nat { if Blank(v) then 0 else 7 + |TrimSpace(v)| }

  function StampLength(ts: u64): nat { if ts == 0 then 0 else 15 }

  lemma OptionalSize(id: u16, v: bytes, ts: u64)
    ensures |Tlv.FieldsBytes(OptionalString(id, v))| == OptionalLength(v)
    ensures |Tlv.FieldsBytes(OptionalU64(id, ts))| == StampLength(ts)
  {
    hide Tlv.FieldsBytes, U64;
    EmptySize();
    SizeSnoc([], StringField(id, TrimSpace(v)));
    SizeSnoc([], Tlv.Field(id, Tlv.TYPE_U64, U64(ts)));
    assert [] + [StringField(id, TrimSpace(v))] == [StringField(id, TrimSpace(v))];
    assert [] + [Tlv.Field(id, Tlv.TYPE_U64, U64(ts))] == [Tlv.Field(id, Tlv.TYPE_U64, U64(ts))];
  }

  lemma {:induction false} DecimalBound(n: nat)
    ensures |Decimal(n)| <= n + 1
  {
    if n >= 10 {
      DecimalBound(n / 10);
    }
  }

  lemma EventSizeIs(e: Event)
    ensures |Tlv.FieldsBytes(EventFields(e))|
            == 42 + |e.eventID| + |e.commandID| + |e.intentID| + |e.ghostID| + |e.seedID| + |e.outcome|
               + StampLength(e.timestampMS)
  {
    hide Tlv.FieldsBytes, OptionalU64;
    var four := [StringField(Schema.EVENT_ID, e.eventID), StringField(Schema.COMMAND_ID, e.commandID),
                 StringField(Schema.INTENT_ID, e.intentID), StringField(Schema.GHOST_ID, e.ghostID)];
    var seed, outcome := StringField(Schema.SEED_ID, e.seedID), StringField(Schema.OUTCOME, e.outcome);
    FourSize(four[0], four[1], four[2], four[3]);
    SizeSnoc(four, seed);
    SizeSnoc(four + [seed], outcome);
    Tlv.FieldsBytesConcat(four + [seed] + [outcome], OptionalU64(Schema.TIMESTAMP_MS, e.timestampMS));
    OptionalSize(Schema.TIMESTAMP_MS, [], e.timestampMS);
    assert EventFields(e) == four + [seed] + [outcome] + OptionalU64(Schema.TIMESTAMP_MS, e.timestampMS);
  }

  lemma AckSizeIs(a: EventAck)
    ensures |Tlv.FieldsBytes(AckFields(a))| == 54 + |a.eventID| + |a.commandID| + |a.ghostID| + |a.ackStatus|
  {
    hide Tlv.FieldsBytes, U32, U64;
    var four := [StringField(Schema.EVENT_ID, a.eventID), StringField(Schema.COMMAND_ID, a.commandID),
                 StringField(Schema.GHOST_ID, a.ghostID), StringField(Schema.ACK_STATUS, a.ackStatus)];
    var code := Tlv.Field(Schema.ACK_CODE, Tlv.TYPE_U32, U32(a.ackCode));
    var stamp := Tlv.Field(Schema.TIMESTAMP_MS, Tlv.TYPE_U64, U64(a.timestampMS));
    FourSize(four[0], four[1], four[2], four[3]);
    SizeSnoc(four, code);
    SizeSnoc(four + [code], stamp);
    assert AckFields(a) == four + [code] + [stamp];
  }

  lemma CommandSizeIs(codec: ArgsCodec, c: Command)
    requires c.args == map[]
    ensures |Tlv.FieldsBytes(CommandFields(codec, c))|
            == 35 + |c.commandID| + |c.intentID| + |c.ghostID| + |c.seedSelector| + |c.operation|
  {
    hide Tlv.FieldsBytes;
    var four := [StringField(Schema.COMMAND_ID, c.commandID), StringField(Schema.INTENT_ID, c.intentID),
                 StringField(Schema.GHOST_ID, c.ghostID), StringField(Schema.SEED_SELECTOR, c.seedSelector)];
    var operation := StringField(Schema.OPERATION, c.operation);
    FourSize(four[0], four[1], four[2], four[3]);
    SizeSnoc(four, operation);
    assert CommandFields(codec, c) == four + [operation];
  }

  lemma ReportSizeIs(r: Report)
    ensures |Tlv.FieldsBytes(ReportFields(r))|
            == 28 + |r.intentID| + |r.phase| + |r.summary| + |r.completionState|
               + OptionalLength(r.commandID) + OptionalLength(r.executionID) + OptionalLength(r.eventID)
               + OptionalLength(r.outcome) + StampLength(r.timestampMS)
  {
    hide Tlv.FieldsBytes, OptionalString, OptionalU64, OptionalLength;
    var head := [StringField(Schema.INTENT_ID, r.intentID), StringField(Schema.PHASE, r.phase),
                 StringField(Schema.SUMMARY, r.summary), StringField(Schema.COMPLETION_STATE, r.completionState)];
    var c, x := OptionalString(Schema.COMMAND_ID, r.commandID), OptionalString(Schema.EXECUTION_ID, r.executionID);
    var e, o := OptionalString(Schema.EVENT_ID, r.eventID), OptionalString(Schema.OUTCOME, r.outcome);
    FourSize(head[0], head[1], head[2], head[3]);
    OptionalSize(Schema.COMMAND_ID, r.commandID, 0);
    OptionalSize(Schema.EXECUTION_ID, r.executionID, 0);
    OptionalSize(Schema.EVENT_ID, r.eventID, 0);
    OptionalSize(Schema.OUTCOME, r.outcome, 0);
    OptionalSize(Schema.TIMESTAMP_MS, [], r.timestampMS);
    Tlv.FieldsBytesConcat(head + c + x + e + o, OptionalU64(Schema.TIMESTAMP_MS, r.timestampMS));
    Tlv.FieldsBytesConcat(head + c + x + e, o);
    Tlv.FieldsBytesConcat(head + c + x, e);
    Tlv.FieldsBytesConcat(head + c, x);
    Tlv.FieldsBytesConcat(head, c);
  }

  const SMALL: nat := 400000

  lemma ReportForSize(d: DesiredIntent, before: nat, e: Event, now: u64)
    requires |d.issue.intentID| <= SMALL && |d.commands| <= 10000 && before < |d.commands|
    requires |e.commandID| <= SMALL && |e.ghostID| <= SMALL && |e.eventID| <= SMALL + 4 && |e.outcome| <= 7
    ensures ReportFits(d, before, e, now)
  {
    hide Tlv.FieldsBytes, ReportFields, TrimSpace, Decimal;
    DecimalBound(before + 1);
    DecimalBound(|d.commands|);
    ReportSizeIs(ReportFor(d, before, e, now));
  }
}

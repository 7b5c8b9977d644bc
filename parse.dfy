/**
 * Turning one log line into a record (main.go, the body of the read loop):
 * split at the first space, decode the payload as a JSON object or fall back
 * to a record holding it as `msg`, inject `timestamp`, and take the grouping
 * key from `source`.
 */
module LineParser {
  import opened Display

  /** The three results of `bytes.Cut`. */
  datatype Split = Split(before: string, after: string, found: bool)

  /**
   * `bytes.Cut(s, [sep])`: the text around the first `sep`; when there is
   * none, all of `s` comes before it and nothing after.
   */
  function Cut(s: string, sep: char): (r: Split)
    ensures r.found ==> s == r.before + [sep] + r.after && sep !in r.before
    ensures !r.found ==> r.before == s && r.after == "" && sep !in s
  {
    if s == [] then Split("", "", false)
    else if s[0] == sep then Split("", s[1..], true)
    else
      var rest := Cut(s[1..], sep);
      assert s == [s[0]] + s[1..];
      Split([s[0]] + rest.before, rest.after, rest.found)
  }

  /** Cut takes apart exactly what joining at a first separator put together. */
  lemma {:induction false} CutJoin(before: string, sep: char, after: string)
    requires sep !in before
    ensures Cut(before + [sep] + after, sep) == Split(before, after, true)
  {
    if before != [] {
      assert (before + [sep] + after)[1..] == before[1..] + [sep] + after;
      CutJoin(before[1..], sep, after);
    }
  }

  /**
   * What `json.Unmarshal` into a `map[string]any` leaves: an error (any text
   * that is not a JSON object), a nil map (the text `null`), or an object.
   */
  datatype Decoded = NotObject | NullObject | Object(fields: Row)

  /** The text before the first space: the timestamp Kubernetes prefixes. */
  function TimestampToken(line: string): string
  {
    Cut(line, ' ').before
  }

  /** The text after the first space, with the line's newline still on it. */
  function Payload(line: string): string
  {
    Cut(line, ' ').after
  }

  /**
   * The payload does not decode to `null`; on such a line the program would
   * assign into a nil map and panic, so the model leaves that case out.
   */
  predicate Decodable(line: string, decode: string -> Decoded)
  {
    !decode(Payload(line)).NullObject?
  }

  /**
   * The record of one line: the decoded object or `{msg: payload}`, with
   * `timestamp` set to the timestamp token in either case, overriding any
   * `timestamp` the payload carried; every other field is the payload's.
   */
  function ParseLine(line: string, decode: string -> Decoded): (r: Row)
    requires Decodable(line, decode)
    ensures "timestamp" in r && r["timestamp"] == Str(TimestampToken(line))
    ensures decode(Payload(line)).NotObject? ==>
              r == map["msg" := Str(Payload(line)), "timestamp" := Str(TimestampToken(line))]
    ensures decode(Payload(line)).Object? ==>
              forall k :: k != "timestamp" ==>
                (k in r <==> k in decode(Payload(line)).fields) &&
                (k in r ==> r[k] == decode(Payload(line)).fields[k])
  {
    var split := Cut(line, ' ');
    var record := match decode(split.after)
      case Object(fields) => fields
      case _ => map["msg" := Str(split.after)];
    record["timestamp" := Str(split.before)]
  }

  /** The grouping key: the `source` field when it holds a string, else "". */
  function SourceKey(record: Row): string
  {
    if "source" in record && record["source"].Str? then record["source"].s else ""
  }

  /** A line `<timestamp> <payload>` parses to that timestamp, whatever the payload holds. */
  lemma SpacedLine(timestamp: string, payload: string, decode: string -> Decoded)
    requires ' ' !in timestamp
    requires !decode(payload).NullObject?
    ensures TimestampToken(timestamp + " " + payload) == timestamp
    ensures Payload(timestamp + " " + payload) == payload
    ensures Decodable(timestamp + " " + payload, decode)
    ensures ParseLine(timestamp + " " + payload, decode)["timestamp"] == Str(timestamp)
  {
    CutJoin(timestamp, ' ', payload);
  }

  /**
   * A line without a space is all timestamp: the payload is empty, which is
   * not a JSON object, so the record is `{msg: "", timestamp: line}`.
   */
  lemma NoSpaceLine(line: string, decode: string -> Decoded)
    requires ' ' !in line
    requires decode("") == NotObject
    ensures Decodable(line, decode)
    ensures ParseLine(line, decode) == map["msg" := Str(""), "timestamp" := Str(line)]
  {
  }

  /**
   * The grouping key of a parsed line comes from the payload alone: the
   * object's `source` when it is a string, and "" for every line that fell
   * back to `{msg: payload}`.
   */
  lemma ParsedSourceKey(line: string, decode: string -> Decoded)
    requires Decodable(line, decode)
    ensures var d := decode(Payload(line));
            SourceKey(ParseLine(line, decode)) ==
              if d.Object? && "source" in d.fields && d.fields["source"].Str? then d.fields["source"].s else ""
  {
    var r := ParseLine(line, decode);
    assert "source" != "timestamp";
    if decode(Payload(line)).NotObject? {
      assert "source" !in r;
    }
  }
}

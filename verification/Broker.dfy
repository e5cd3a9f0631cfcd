/** The broker, as far as its clients rely on it: partitions that only grow. */
module Broker {
  import opened Lines

  datatype Part = Part(topic: string, num: nat)
  type Log = map<Part, seq<Bytes>>

  function Appended(log: Log, part: Part, value: Bytes): Log {
    log[part := (if part in log then log[part] else []) + [value]]
  }

  ghost predicate InLog(log: Log, topic: string, raw: Bytes) {
    exists p, i :: p in log && p.topic == topic && 0 <= i < |log[p]| && log[p][i] == raw
  }

  ghost predicate LogLe(a: Log, b: Log) {
    forall p :: p in a ==> p in b && a[p] <= b[p]
  }

  lemma InLogGrows(a: Log, b: Log, topic: string, raw: Bytes)
    requires LogLe(a, b) && InLog(a, topic, raw)
    ensures InLog(b, topic, raw)
  {
    var p, i :| p in a && p.topic == topic && 0 <= i < |a[p]| && a[p][i] == raw;
    assert b[p][i] == raw;
  }

  lemma LogLeReflexive(a: Log)
    ensures LogLe(a, a)
  {}

  lemma AppendedGrows(log: Log, part: Part, value: Bytes)
    ensures LogLe(log, Appended(log, part, value))
  {}
}

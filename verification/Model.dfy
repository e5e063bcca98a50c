/** The records of the twin: nodes and their checkpoints. */
module Model {
  import opened Base

  datatype DriftStatus = Clean | Watch | Flagged | Contained

  datatype Privilege = Low | Medium | High

  datatype Node = Node(
    agent: Id,
    privilege: Privilege,
    task: string,
    intent: string,
    output: string,
    effects: seq<string>,
    score: real,
    status: DriftStatus,
    quarantined: bool,
    blocked: bool,
    ts: real)

  /** A saved context; a key may be missing, as in any JSON object. */
  datatype Context = Context(intent: Option<string>, output: Option<string>, task: Option<string>)

  datatype Checkpoint = Checkpoint(node: Id, agent: Id, context: Context, ts: real)

  /** The name of the snapshot taken when a span is committed. */
  function CheckpointOf(span: Id): Id {
    Id("ckpt::" + span.text)
  }

  function MinReal(a: real, b: real): real {
    if b < a then b else a
  }

  function MaxReal(a: real, b: real): real {
    if b > a then b else a
  }
}

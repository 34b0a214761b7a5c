/** The executable program the planner reads (execution/types.rs) and the
    facts about it that manifest validation and reference checks establish. */
module Programs {
  import opened Wrappers

  type TaskId = string
  type ServiceId = string
  type EndpointId = string
  type u16 = n: int | 0 <= n < 0x1_0000

  datatype Step = Step(name: string, task: TaskId, dependsOn: seq<string>)

  datatype Task =
    | Leaf(requirements: seq<ServiceId>)
    | Composite(steps: seq<Step>)

  datatype Service = Service(prepare: Option<TaskId>, connectsTo: seq<ServiceId>, endpoints: seq<EndpointId>)

  datatype PortWindow = PortWindow(start: u16, end: u16) {
    predicate Valid() {
      0 < start <= end
    }

    function Capacity(): nat
      requires Valid()
    {
      end - start + 1
    }
  }

  datatype Program = Program(
    services: map<ServiceId, Service>,
    tasks: map<TaskId, Task>,
    slotWindows: map<nat, PortWindow>)

  predicate IsIdentifierChar(c: char) {
    'a' <= c <= 'z' || 'A' <= c <= 'Z' || '0' <= c <= '9'
  }

  /** The dot-free identifier shape required of task ids, service ids and step names. */
  predicate IsStepSafeId(id: string) {
    && id != ""
    && IsIdentifierChar(id[0])
    && forall c <- id :: IsIdentifierChar(c) || c == '_' || c == '-'
  }

  /** Letters and digits anywhere, underscores and hyphens anywhere but in front. */
  lemma {:induction false} StepSafeMeans(id: string)
    ensures IsStepSafeId(id) <==> |id| > 0 && forall i :: 0 <= i < |id| ==>
      || 'a' <= id[i] <= 'z' || 'A' <= id[i] <= 'Z' || '0' <= id[i] <= '9'
      || (i > 0 && (id[i] == '_' || id[i] == '-'))
  {
    forall i | 0 <= i < |id| ensures id[i] in id {}
  }

  predicate StepNamesDistinct(steps: seq<Step>) {
    forall i, j :: 0 <= i < j < |steps| ==> steps[i].name != steps[j].name
  }

  function StepNames(steps: seq<Step>): set<string> {
    set s <- steps :: s.name
  }

  /** Every named task, step, service and prepare task is declared. */
  predicate ReferencesResolve(p: Program) {
    && (forall id :: id in p.tasks ==>
          match p.tasks[id]
          case Leaf(requirements) => forall s <- requirements :: s in p.services
          case Composite(steps) =>
            forall s <- steps :: s.task in p.tasks && forall d <- s.dependsOn :: d in StepNames(steps))
    && (forall id :: id in p.services ==>
          && (forall t <- p.services[id].connectsTo :: t in p.services)
          && (p.services[id].prepare.Some? ==> p.services[id].prepare.value in p.tasks))
  }

  /** Shape facts of a validated manifest: composites have steps with distinct
      dot-free names, ids are dot-free, endpoint ids of one service are distinct,
      and port windows are nonempty. */
  predicate Validated(p: Program) {
    && (forall id :: id in p.tasks ==>
          && IsStepSafeId(id)
          && (p.tasks[id].Composite? ==>
                && p.tasks[id].steps != []
                && StepNamesDistinct(p.tasks[id].steps)
                && forall s <- p.tasks[id].steps :: IsStepSafeId(s.name)))
    && (forall id :: id in p.services ==>
          var endpoints := p.services[id].endpoints;
          forall i, j :: 0 <= i < j < |endpoints| ==> endpoints[i] != endpoints[j])
    && (forall slot :: slot in p.slotWindows ==> p.slotWindows[slot].Valid())
  }

  predicate WellFormed(p: Program) {
    ReferencesResolve(p) && Validated(p)
  }

  /** Task references: a composite points at the task of each of its steps. */
  function TaskGraph(p: Program): map<TaskId, set<TaskId>> {
    map id | id in p.tasks ::
      match p.tasks[id]
      case Leaf(_) => {}
      case Composite(steps) => set s <- steps :: s.task
  }

  /** Sibling dependencies inside one composite. */
  function SiblingGraph(steps: seq<Step>): map<string, set<string>> {
    map name | name in StepNames(steps) :: set s, d | s in steps && s.name == name && d in s.dependsOn :: d
  }
}

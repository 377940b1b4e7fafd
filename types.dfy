/** The wire and storage shapes shared by the browser and the server: a task
    session with its three ordered event sequences. Field names follow the
    stored JSON keys in camel case. */
module Types {

  datatype Option<T> = None | Some(value: T)

  /** One tracked link activation. `dwellTenths` is the dwell time in tenths
      of a second (the stored `dwell_time_sec` times ten), `None` until the
      participant returns. */
  datatype ClickEvent = ClickEvent(
    taskId: string,
    clickOrder: nat,
    pageTitle: string,
    pageId: string,
    positionInSerp: string,
    clickTime: string,
    dwellTenths: Option<int>,
    fromOverview: bool,
    fromAiMode: bool)

  /** A "show more" or "show all" expansion; both sequences share this shape. */
  datatype Interaction = Interaction(
    taskId: string,
    clickOrder: nat,
    componentName: string,
    clickTime: string)

  /** One participant's attempt at one task variant. `id` is the optional
      numeric id the browser sends along (0 on creation); the server
      discards it. */
  datatype TaskSession = TaskSession(
    id: Option<int>,
    participantId: string,
    treatmentGroup: string,
    taskId: string,
    taskTopic: string,
    taskType: string,
    taskStartTime: string,
    taskEndTime: Option<string>,
    pageClickStatics1: nat,
    pageClickStatics2: nat,
    pageClickStatics3: nat,
    pageClickStatics4: nat,
    clickSequence: seq<ClickEvent>,
    showMoreInteractions: seq<Interaction>,
    showAllInteractions: seq<Interaction>)
}

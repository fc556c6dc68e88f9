/** Vocabulary shared by the control plane, the catalog and the runtime. */
module Base {

  datatype Option<+T> = None | Some(value: T)

  datatype Result<+T, +E> = Ok(value: T) | Err(error: E)

  /** The wire protocols, in the order of the database enum `gateway_protocol`. */
  datatype Protocol = ChatCompletions | Responses | Messages

  const ALL_PROTOCOLS: seq<Protocol> := [ChatCompletions, Responses, Messages]

  /** Position in the database enum: what `ORDER BY protocol` compares. */
  function EnumRank(p: Protocol): nat {
    match p
    case ChatCompletions => 0
    case Responses => 1
    case Messages => 2
  }

  /** Position of the protocol's name in string order ("anthropic_messages" <
      "openai_chat_completions" < "openai_responses"): what sorting by
      `to_string` compares. */
  function NameRank(p: Protocol): nat {
    match p
    case Messages => 0
    case ChatCompletions => 1
    case Responses => 2
  }

  datatype CatalogStatus = Pending | Confirmed | Unavailable {
    predicate CanTransitionTo(next: CatalogStatus) {
      || this == next
      || (Pending? && (next.Confirmed? || next.Unavailable?))
      || (Confirmed? && next.Unavailable?)
      || (Unavailable? && next.Pending?)
    }
  }

  datatype Availability = UnknownAvailability | Available | NotAvailable

  /** How a source model serves a protocol. */
  datatype ProtocolMode = UnknownMode | Native | Adapter | Unsupported {
    predicate Routable() {
      Native? || Adapter?
    }
  }

  /** Who a metadata value or a capability row comes from. */
  datatype MetadataSource = UpstreamLayer | PresetLayer | UserLayer | UnknownLayer
}

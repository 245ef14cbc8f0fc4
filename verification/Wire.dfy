// The messages a provider process sends to the daemon (the `Response` oneof of
// proto/neural_tts.proto), reduced to the cases the daemon tells apart.
module Wire {
  type Pcm = seq<int>

  datatype Body =
    | SynthesizeHeader
    | AudioChunk(pcm: Pcm)
    | AudioEnd
    | Error
    | WarmupReply
    | ShutdownReply

  datatype ProviderState = STOPPED | STARTING | READY | SHUTTING_DOWN | FAILED
}

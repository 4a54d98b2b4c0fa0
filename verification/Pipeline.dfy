/** What happens to one message between `send` on one side and the receiving
    callback on the other: Network/DataHandler.cpp, Network/ReceivingJob.cpp and
    the guards of Utilities/Encryptor.cpp. */
module Pipeline {
  import opened Bytes
  import Combiner
  import Compressor
  import Frames

  datatype Mode = Binary | File | Message | Connection

  function ModeByte(mode: Mode): byte {
    match mode
    case Binary => 0
    case File => 1
    case Message => 2
    case Connection => 3
  }

  /** The handlers that both endpoints register, under the number of their mode. */
  const HANDLERS: map<byte, Mode> := map[3 := Connection, 0 := Binary, 2 := Message, 1 := File]

  /** `message_handlers_.find`. */
  function ModeOf(number: byte): Option<Mode> {
    if number in HANDLERS then Some(HANDLERS[number]) else None
  }

  /** AES-CBC over the decoded key and iv, as two functions. */
  datatype Cipher = Cipher(encrypt: (bytes, string, string) -> bytes, decrypt: (bytes, string, string) -> bytes)

  ghost predicate CipherInverts(cipher: Cipher) {
    forall data, key, iv :: data != [] ==>
      cipher.encrypt(data, key, iv) != [] && cipher.decrypt(cipher.encrypt(data, key, iv), key, iv) == data
  }

  /** The encryption settings of one endpoint. */
  datatype Keys = Keys(encrypt: bool, key: string, iv: string) {
    /** The cipher is really applied: the mode is on and neither text is empty. */
    predicate Active() { encrypt && key != "" && iv != "" }
  }

  /** Everything both endpoints must agree on. */
  datatype Setup = Setup(codec: Compressor.Codec, blockBytes: nat, cipher: Cipher)

  // ----- the stages -----

  function Encryption(cipher: Cipher, data: bytes, key: string, iv: string): Option<bytes> {
    if data == [] || key == "" || iv == "" then None else Some(cipher.encrypt(data, key, iv))
  }

  function Decryption(cipher: Cipher, data: bytes, key: string, iv: string): Option<bytes> {
    if data == [] || key == "" || iv == "" then None else Some(cipher.decrypt(data, key, iv))
  }

  /** Every stage falls back to its input. */
  function OrElse(result: Option<bytes>, data: bytes): bytes {
    match result case None => data case Some(value) => value
  }

  function Packed(mode: Mode, data: bytes): bytes {
    Combiner.Record([ModeByte(mode)]) + Combiner.Record(data)
  }

  function EncryptStage(setup: Setup, keys: Keys, data: bytes): bytes {
    if !keys.encrypt then data else OrElse(Encryption(setup.cipher, data, keys.key, keys.iv), data)
  }

  function CompressStage(setup: Setup, data: bytes): bytes {
    OrElse(Compressor.Compression(setup.codec, setup.blockBytes, data), data)
  }

  function DecompressStage(setup: Setup, data: bytes): bytes
    requires Compressor.Decodable(setup.codec, setup.blockBytes, data)
  {
    OrElse(Compressor.Decompression(setup.codec, setup.blockBytes, data), data)
  }

  function DecryptStage(setup: Setup, keys: Keys, data: bytes): bytes {
    if !keys.encrypt then data else OrElse(Decryption(setup.cipher, data, keys.key, keys.iv), data)
  }

  /** Connection messages skip the cipher. */
  function Outgoing(setup: Setup, keys: Keys, mode: Mode, data: bytes): bytes {
    CompressStage(setup, if mode == Connection then Packed(mode, data) else EncryptStage(setup, keys, Packed(mode, data)))
  }

  function Incoming(setup: Setup, keys: Keys, payload: bytes): bytes
    requires Compressor.Decodable(setup.codec, setup.blockBytes, payload)
  {
    DecryptStage(setup, keys, DecompressStage(setup, payload))
  }

  /** What `ReceivingJob::working` hands to its callback. */
  datatype Delivery = Delivered(mode: byte, data: bytes) | Refused

  /** One message as its sender gives it to `send`, and as a handler gets it. */
  datatype Sent = Sent(mode: Mode, data: bytes)

  /** `received_data`: the handler that gets a delivery, and what it gets. */
  function Dispatch(delivery: Delivery): Option<Sent> {
    if delivery.Refused? then None
    else
      match ModeOf(delivery.mode)
      case None => None
      case Some(mode) => Some(Sent(mode, delivery.data))
  }

  function Deliver(data: bytes): Delivery {
    if data == [] then Refused
    else
      var mode := Combiner.DivideAt(data, 0);
      var content := Combiner.DivideAt(data, mode.next);
      if |mode.data| != 1 || content.data == [] then Refused
      else Delivered(mode.data[0], content.data)
  }

  /** `ReceivingJob::working`. */
  method Receive(data: bytes) returns (result: Delivery)
    requires |data| < WORD
    requires Combiner.EndFits(data, 0) && Combiner.EndFits(data, Combiner.DivideAt(data, 0).next)
    ensures result == Deliver(data)
  {
    if data == [] {
      return Refused;
    }
    var cursor := new Combiner.Cursor();
    var mode := Combiner.Divide(data, cursor);
    var content := Combiner.Divide(data, cursor);
    if |mode| != 1 || content == [] {
      return Refused;
    }
    return Delivered(mode[0], content);
  }

  // ----- properties -----

  /** The number that a mode is sent with finds the handler of that mode and no
      other; no other number finds a handler. */
  lemma ModesMatch(number: byte)
    ensures forall mode :: ModeOf(number) == Some(mode) <==> ModeByte(mode) == number
    ensures ModeOf(number).None? <==> 4 <= number
  {
  }

  /** Of two records in front of anything, the receiver takes a mode of one byte and
      data that is not empty, and refuses every other pair. */
  lemma DeliverRecords(mode: bytes, data: bytes, rest: bytes)
    requires |mode| < WORD && |data| < WORD
    ensures Deliver(Combiner.Record(mode) + Combiner.Record(data) + rest)
         == if |mode| == 1 && data != [] then Delivered(mode[0], data) else Refused
  {
    var first, second := Combiner.Record(mode), Combiner.Record(data);
    var all := first + second + rest;
    assert all[0..] == all && all == first + (second + rest);
    Combiner.DivideRecord(all, 0, mode);
    assert all[8 + |mode|..] == second + rest;
    Combiner.DivideRecord(all, 8 + |mode|, data);
  }

  lemma DeliverPacked(mode: Mode, data: bytes)
    requires data != [] && |data| < WORD
    ensures Deliver(Packed(mode, data)) == Delivered(ModeByte(mode), data)
    ensures Dispatch(Deliver(Packed(mode, data))) == Some(Sent(mode, data))
  {
    ModesMatch(ModeByte(mode));
    assert Packed(mode, data) + [] == Packed(mode, data);
    DeliverRecords([ModeByte(mode)], data, []);
  }

  /** What goes into the frame: with an active key the codec is given what the cipher
      made of the packed message and otherwise the packed message, connection
      messages always the latter; a message without a block that the codec takes
      goes out as it is. */
  lemma PayloadIs(setup: Setup, keys: Keys, mode: Mode, data: bytes)
    ensures var clear := if keys.Active() && mode != Connection
                         then setup.cipher.encrypt(Packed(mode, data), keys.key, keys.iv) else Packed(mode, data);
            var compressed := Compressor.Compressed(setup.codec, setup.blockBytes, setup.codec.encoder, [], clear);
            Outgoing(setup, keys, mode, data) == if compressed == [] then clear else compressed
  {
  }

  /** The two cipher settings undo each other: both applied with the same key
      and iv, or neither applied. */
  predicate Agree(sender: Keys, receiver: Keys) {
    && sender.Active() == receiver.Active()
    && (sender.Active() ==> sender.key == receiver.key && sender.iv == receiver.iv)
  }

  lemma CipherRoundTrip(setup: Setup, sender: Keys, receiver: Keys, data: bytes)
    requires CipherInverts(setup.cipher) && Agree(sender, receiver) && data != []
    ensures DecryptStage(setup, receiver, EncryptStage(setup, sender, data)) == data
    ensures EncryptStage(setup, sender, data) != []
  {
  }

  /** The receiver of a message of this mode undoes what its sender did. */
  predicate Compatible(mode: Mode, sender: Keys, receiver: Keys) {
    if mode == Connection then !receiver.Active() else Agree(sender, receiver)
  }

  /** What goes into the compressor. */
  function Clear(setup: Setup, keys: Keys, mode: Mode, data: bytes): bytes {
    if mode == Connection then Packed(mode, data) else EncryptStage(setup, keys, Packed(mode, data))
  }

  /** The codec inverts itself and takes every block of this message, and the
      compressed form can be indexed by an `int32_t`. */
  ghost predicate Carries(
    setup: Setup, related: (Compressor.StreamState, Compressor.StreamState) -> bool, keys: Keys, mode: Mode, data: bytes)
  {
    var clear := Clear(setup, keys, mode, data);
    && setup.blockBytes < 0x1_0000
    && Compressor.Inverts(setup.codec, setup.blockBytes, related)
    && Compressor.AcceptsAll(setup.codec, setup.blockBytes, setup.codec.encoder, [], clear)
    && |Compressor.Compressed(setup.codec, setup.blockBytes, setup.codec.encoder, [], clear)| < INT32_LIMIT
  }

  lemma StagesRoundTrip(
    setup: Setup, related: (Compressor.StreamState, Compressor.StreamState) -> bool,
    sender: Keys, receiver: Keys, mode: Mode, data: bytes)
    requires CipherInverts(setup.cipher) && data != [] && |data| < WORD
    requires Compatible(mode, sender, receiver) && Carries(setup, related, sender, mode, data)
    ensures var payload := Outgoing(setup, sender, mode, data);
            && payload != [] && |payload| < INT32_LIMIT
            && Compressor.Decodable(setup.codec, setup.blockBytes, payload)
            && Dispatch(Deliver(Incoming(setup, receiver, payload))) == Some(Sent(mode, data))
  {
    var packed, clear := Packed(mode, data), Clear(setup, sender, mode, data);
    if mode != Connection {
      CipherRoundTrip(setup, sender, receiver, packed);
    }
    Compressor.CompressionRoundTrip(setup.codec, setup.blockBytes, related, clear);
    DeliverPacked(mode, data);
  }

  function Payloads(setup: Setup, keys: Keys, messages: seq<Sent>): (p: seq<bytes>)
    ensures |p| == |messages|
    ensures forall i :: 0 <= i < |p| ==> p[i] == Outgoing(setup, keys, messages[i].mode, messages[i].data)
  {
    if messages == [] then []
    else [Outgoing(setup, keys, messages[0].mode, messages[0].data)] + Payloads(setup, keys, messages[1..])
  }

  /** Any messages, written as frames one after the other and read through a buffer
      of any size: the payloads come out in the order of the frames, and each of
      them, undone stage by stage, gives its message to the handler of its mode. In
      which order the handlers run is up to the workers. */
  lemma EndToEnd(
    setup: Setup, related: (Compressor.StreamState, Compressor.StreamState) -> bool, codes: Frames.Codes,
    bufferSize: nat, sender: Keys, receiver: Keys, messages: seq<Sent>)
    requires CipherInverts(setup.cipher) && codes.Valid() && 0 < bufferSize
    requires forall i :: 0 <= i < |messages| ==>
      && messages[i].data != [] && |messages[i].data| < WORD
      && Compatible(messages[i].mode, sender, receiver)
      && Carries(setup, related, sender, messages[i].mode, messages[i].data)
    ensures var emitted := Frames.Run(codes, bufferSize, Frames.FRESH, Frames.Wire(codes, Payloads(setup, sender, messages))).0.emitted;
            && |emitted| == |messages|
            && forall i :: 0 <= i < |messages| ==>
                 && Compressor.Decodable(setup.codec, setup.blockBytes, emitted[i])
                 && Dispatch(Deliver(Incoming(setup, receiver, emitted[i]))) == Some(messages[i])
  {
    var payloads := Payloads(setup, sender, messages);
    forall i | 0 <= i < |messages|
      ensures |payloads[i]| < WORD
      ensures Compressor.Decodable(setup.codec, setup.blockBytes, payloads[i])
      ensures Dispatch(Deliver(Incoming(setup, receiver, payloads[i]))) == Some(messages[i])
    {
      StagesRoundTrip(setup, related, sender, receiver, messages[i].mode, messages[i].data);
    }
    Frames.FrameRoundTrip(codes, bufferSize, payloads, [], 0);
  }
}

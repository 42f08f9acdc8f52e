/** framework/graphics/shadowed_device.h: a filter in front of the device that
    remembers the last state set and forwards a Set* call only when its
    argument differs from it.

    Every device object is compared by its one native pointer, so each is a
    handle here (0 for NULL). The calls that reach the device are a ghost
    trace. The statistics are the shared PerfGrab table ShadowDevicePerfs. */
module ShadowedDevices {
  import opened PerfCounters

  /** The device calls forwarded, in order. */
  datatype DeviceCall =
    | SetRenderTargets(colour: nat, depthStencil: nat)
    | SetPrimitiveTopology(topology: nat)
    | SetInputLayout(layout: nat)
    | SetVertexBuffer(stream: nat, vb: nat)
    | SetIndexBuffer(ib: nat)
    | SetTechnique(technique: nat, pass: int)
    | DrawIndexed(indexCount: nat)

  /** kuMaxVertexBuffers. */
  const MaxVertexBuffers: nat := 16
  /** PRIMITIVE_TRIANGLES, D3D10_PRIMITIVE_TOPOLOGY_TRIANGLELIST. */
  const PrimitiveTriangles: nat := 4
  /** PRIMITIVE_NA, the topology no real call sets. */
  const PrimitiveNA: nat := 0xbad1fff

  /** The ShadowPerfGrab::Stats slots. */
  const NumIBChanges: nat := 0
  const NumVBChanges: nat := 1
  const NumEffectChanges: nat := 2
  const NumDrawCalls: nat := 3
  const MaxPerfGrabs: nat := 4

  /** The device itself, as the calls it has received. */
  class Device {
    ghost var calls: seq<DeviceCall>

    constructor ()
      ensures calls == []
    {
      calls := [];
    }
  }

  /** The caller's EffectTechnique: its native technique and its dirty
      flag, which SetTechnique clears. */
  class EffectTechnique {
    var handle: nat
    var dirty: bool

    constructor (handle: nat, dirty: bool)
      ensures this.handle == handle && this.dirty == dirty
    {
      this.handle := handle;
      this.dirty := dirty;
    }
  }

  class ShadowedDevice {
    var colourTarget: nat
    var depthStencil: nat
    var primitiveType: nat
    var inputLayout: nat
    const vertexBuffers: array<nat>
    var indexBuffer: nat
    var technique: nat
    var pass: int
    const perf: PerfGrab
    ghost var calls: seq<DeviceCall>

    ghost predicate Valid()
      reads this, perf
    {
      vertexBuffers.Length == MaxVertexBuffers &&
      perf.slots.Length == MaxPerfGrabs
    }

    /** Every cache holds the invalid state. */
    ghost predicate Invalidated()
      reads this, vertexBuffers
    {
      colourTarget == 0 && depthStencil == 0 && primitiveType == PrimitiveNA &&
      inputLayout == 0 && indexBuffer == 0 && technique == 0 && pass == -1 &&
      forall i :: 0 <= i < vertexBuffers.Length ==> vertexBuffers[i] == 0
    }

    /** The constructor invalidates every cache. */
    constructor (perf: PerfGrab)
      requires perf.slots.Length == MaxPerfGrabs
      ensures Valid() && Invalidated() && calls == [] && this.perf == perf
    {
      this.perf := perf;
      vertexBuffers := new nat[MaxVertexBuffers](_ => 0);
      colourTarget, depthStencil, primitiveType, inputLayout := 0, 0, PrimitiveNA, 0;
      indexBuffer, technique, pass := 0, 0, -1;
      calls := [];
    }

    /** Invalidate: null handles everywhere, PRIMITIVE_NA and pass -1; no
        device call and no counter change. */
    method Invalidate()
      requires Valid()
      modifies this, vertexBuffers
      ensures Valid() && Invalidated() && calls == old(calls)
    {
      var i := 0;
      while i < MaxVertexBuffers
        invariant i <= MaxVertexBuffers
        invariant forall j :: 0 <= j < i ==> vertexBuffers[j] == 0
        invariant calls == old(calls)
      {
        vertexBuffers[i] := 0;
        i := i + 1;
      }
      colourTarget, depthStencil, primitiveType, inputLayout := 0, 0, PrimitiveNA, 0;
      indexBuffer, technique, pass := 0, 0, -1;
    }

    /** StartFrame: zeroes every counter and invalidates the caches. */
    method StartFrame()
      requires Valid()
      modifies this, vertexBuffers, perf.slots
      ensures Valid() && Invalidated() && calls == old(calls)
      ensures forall s :: 0 <= s < MaxPerfGrabs ==> perf.Grab(s) == 0
    {
      perf.Reset(-1);
      Invalidate();
    }

    /** SetRenderTargets: forwards and caches when either target differs. */
    method SetRenderTargets(colour: nat, depthStencil: nat)
      requires Valid()
      modifies this
      ensures Valid() && colourTarget == colour && this.depthStencil == depthStencil
      ensures primitiveType == old(primitiveType) && inputLayout == old(inputLayout)
      ensures indexBuffer == old(indexBuffer) && technique == old(technique) && pass == old(pass)
      ensures calls == old(calls) +
        if colour != old(colourTarget) || depthStencil != old(this.depthStencil)
        then [DeviceCall.SetRenderTargets(colour, depthStencil)] else []
    {
      if colour != colourTarget || depthStencil != this.depthStencil {
        colourTarget, this.depthStencil := colour, depthStencil;
        calls := calls + [DeviceCall.SetRenderTargets(colour, depthStencil)];
      }
    }

    /** SetPrimitiveTopology: forwards and caches on change. */
    method SetPrimitiveTopology(t: nat)
      requires Valid()
      modifies this
      ensures Valid() && primitiveType == t
      ensures colourTarget == old(colourTarget) && depthStencil == old(depthStencil) && inputLayout == old(inputLayout)
      ensures indexBuffer == old(indexBuffer) && technique == old(technique) && pass == old(pass)
      ensures calls == old(calls) + if t != old(primitiveType) then [DeviceCall.SetPrimitiveTopology(t)] else []
    {
      if t != primitiveType {
        primitiveType := t;
        calls := calls + [DeviceCall.SetPrimitiveTopology(t)];
      }
    }

    /** SetInputLayout: forwards and caches on change. */
    method SetInputLayout(l: nat)
      requires Valid()
      modifies this
      ensures Valid() && inputLayout == l
      ensures colourTarget == old(colourTarget) && depthStencil == old(depthStencil) && primitiveType == old(primitiveType)
      ensures indexBuffer == old(indexBuffer) && technique == old(technique) && pass == old(pass)
      ensures calls == old(calls) + if l != old(inputLayout) then [DeviceCall.SetInputLayout(l)] else []
    {
      if l != inputLayout {
        inputLayout := l;
        calls := calls + [DeviceCall.SetInputLayout(l)];
      }
    }

    /** SetVertexBuffer: the int stream is compared as unsigned, so only
        streams 0..15 qualify; such a stream whose cached buffer differs is
        updated, forwarded and counted as a VB change. */
    method SetVertexBuffer(stream: int, vb: nat)
      requires Valid()
      modifies vertexBuffers, perf.slots, this
      ensures Valid()
      ensures var acts := 0 <= stream < MaxVertexBuffers && vb != old(vertexBuffers[stream]);
        (acts ==> vertexBuffers[..] == old(vertexBuffers[..])[stream := vb] &&
                  calls == old(calls) + [DeviceCall.SetVertexBuffer(stream, vb)] &&
                  perf.slots[..] == old(perf.slots[..])[NumVBChanges := old(perf.slots[NumVBChanges]) + 1]) &&
        (!acts ==> vertexBuffers[..] == old(vertexBuffers[..]) && calls == old(calls) &&
                   perf.slots[..] == old(perf.slots[..]))
      ensures 0 <= stream < MaxVertexBuffers ==> vertexBuffers[stream] == vb
      ensures colourTarget == old(colourTarget) && depthStencil == old(depthStencil)
      ensures primitiveType == old(primitiveType) && inputLayout == old(inputLayout)
      ensures indexBuffer == old(indexBuffer) && technique == old(technique) && pass == old(pass)
    {
      if 0 <= stream < MaxVertexBuffers && vb != vertexBuffers[stream] {
        vertexBuffers[stream] := vb;
        calls := calls + [DeviceCall.SetVertexBuffer(stream, vb)];
        perf.Increment(NumVBChanges, 1);
      }
    }

    /** SetIndexBuffer: forwards, caches and counts an IB change on change. */
    method SetIndexBuffer(ib: nat)
      requires Valid()
      modifies this, perf.slots
      ensures Valid() && indexBuffer == ib
      ensures colourTarget == old(colourTarget) && depthStencil == old(depthStencil)
      ensures primitiveType == old(primitiveType) && inputLayout == old(inputLayout)
      ensures technique == old(technique) && pass == old(pass)
      ensures ib != old(indexBuffer) ==>
        calls == old(calls) + [DeviceCall.SetIndexBuffer(ib)] &&
        perf.slots[..] == old(perf.slots[..])[NumIBChanges := old(perf.slots[NumIBChanges]) + 1]
      ensures ib == old(indexBuffer) ==> calls == old(calls) && perf.slots[..] == old(perf.slots[..])
    {
      if ib != indexBuffer {
        indexBuffer := ib;
        calls := calls + [DeviceCall.SetIndexBuffer(ib)];
        perf.Increment(NumIBChanges, 1);
      }
    }

    /** DrawIndexed: always forwarded (here with its index count) and
        counted. */
    method DrawIndexed(indexCount: nat)
      requires Valid()
      modifies this, perf.slots
      ensures Valid() && calls == old(calls) + [DeviceCall.DrawIndexed(indexCount)]
      ensures perf.slots[..] == old(perf.slots[..])[NumDrawCalls := old(perf.slots[NumDrawCalls]) + 1]
      ensures colourTarget == old(colourTarget) && depthStencil == old(depthStencil)
      ensures primitiveType == old(primitiveType) && inputLayout == old(inputLayout)
      ensures indexBuffer == old(indexBuffer) && technique == old(technique) && pass == old(pass)
    {
      calls := calls + [DeviceCall.DrawIndexed(indexCount)];
      perf.Increment(NumDrawCalls, 1);
    }

    /** SetTechnique: when the technique or pass differs from the cache, or
        the technique is dirty, both are cached, the dirty flag is cleared,
        and the call is forwarded and counted. */
    method SetTechnique(t: EffectTechnique, pass: int)
      requires Valid()
      modifies this, t, perf.slots
      ensures Valid() && technique == t.handle && this.pass == pass && !t.dirty
      ensures t.handle == old(t.handle)
      ensures colourTarget == old(colourTarget) && depthStencil == old(depthStencil)
      ensures primitiveType == old(primitiveType) && inputLayout == old(inputLayout)
      ensures indexBuffer == old(indexBuffer)
      ensures var acts := t.handle != old(technique) || pass != old(this.pass) || old(t.dirty);
        (acts ==> calls == old(calls) + [DeviceCall.SetTechnique(t.handle, pass)] &&
                  perf.slots[..] == old(perf.slots[..])[NumEffectChanges := old(perf.slots[NumEffectChanges]) + 1]) &&
        (!acts ==> calls == old(calls) && perf.slots[..] == old(perf.slots[..]))
    {
      if t.handle != technique || pass != this.pass || t.dirty {
        technique, this.pass := t.handle, pass;
        t.dirty := false;
        calls := calls + [DeviceCall.SetTechnique(t.handle, pass)];
        perf.Increment(NumEffectChanges, 1);
      }
    }
  }
}

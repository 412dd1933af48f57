/**
 * The player's key-state machine: key presses and releases set the input
 * axes, Space jumps when on the ground, R respawns, and `ApplyInputs`
 * copies the input into the velocity while the pointer lock is held.
 */
module Players {

  /** `event.code` of a keyboard event, with every other key folded into `Other`. */
  datatype Key = KeyW | KeyA | KeyS | KeyD | KeyR | Space | Other

  class Player {
    const radius: real := 0.5
    const height: real := 1.75
    const jumpSpeed: real := 10.0
    const maxSpeed: real := 10.0

    var onGround: bool
    /** `input`: the desired velocity in the player's own frame. */
    var inputX: real
    var inputY: real
    var inputZ: real
    /** `velocity`, in the player's own frame for x and z. */
    var velX: real
    var velY: real
    var velZ: real
    /** `position`: the camera position, i.e. the top of the player's cylinder. */
    var posX: real
    var posY: real
    var posZ: real
    /** `controls.isLocked`: whether the pointer lock is held. */
    var locked: bool

    /** Each horizontal input axis is at rest or at full speed; the vertical one stays 0. */
    ghost predicate InputInvariant()
      reads this
    {
      inputX in {-maxSpeed, 0.0, maxSpeed} && inputZ in {-maxSpeed, 0.0, maxSpeed} && inputY == 0.0
    }

    /** A new player stands at (32, 16, 32), at rest, with no key held and the pointer not locked. */
    constructor ()
      ensures posX == 32.0 && posY == 16.0 && posZ == 32.0
      ensures velX == 0.0 && velY == 0.0 && velZ == 0.0
      ensures inputX == 0.0 && inputY == 0.0 && inputZ == 0.0
      ensures !onGround && !locked
      ensures InputInvariant()
    {
      posX, posY, posZ := 32.0, 16.0, 32.0;
      velX, velY, velZ := 0.0, 0.0, 0.0;
      inputX, inputY, inputZ := 0.0, 0.0, 0.0;
      onGround := false;
      locked := false;
    }

    /**
     * `keydown`: W/S set the forward axis, A/D the sideways axis, R
     * respawns at (32, 16, 32) at rest, Space jumps only when on the ground.
     */
    method OnKeyDown(key: Key)
      modifies this
      ensures inputX == (match key case KeyA => -maxSpeed case KeyD => maxSpeed case _ => old(inputX))
      ensures inputZ == (match key case KeyW => maxSpeed case KeyS => -maxSpeed case _ => old(inputZ))
      ensures inputY == old(inputY)
      ensures key == KeyR ==> posX == 32.0 && posY == 16.0 && posZ == 32.0 && velX == 0.0 && velY == 0.0 && velZ == 0.0
      ensures key != KeyR ==> posX == old(posX) && posY == old(posY) && posZ == old(posZ)
      ensures key != KeyR ==> velX == old(velX) && velZ == old(velZ)
      ensures key != KeyR ==> velY == if key == Space && old(onGround) then old(velY) + jumpSpeed else old(velY)
      ensures onGround == (old(onGround) && key != Space)
      ensures locked == old(locked)
      ensures old(InputInvariant()) ==> InputInvariant()
    {
      match key {
        case KeyW =>
          inputZ := maxSpeed;
        case KeyA =>
          inputX := -maxSpeed;
        case KeyS =>
          inputZ := -maxSpeed;
        case KeyD =>
          inputX := maxSpeed;
        case KeyR =>
          posX, posY, posZ := 32.0, 16.0, 32.0;
          velX, velY, velZ := 0.0, 0.0, 0.0;
        case Space =>
          if onGround {
            velY := velY + jumpSpeed;
            onGround := false;
          }
        case Other =>
      }
    }

    /** `keyup`: releasing W or S stops the forward axis, A or D the sideways axis. */
    method OnKeyUp(key: Key)
      modifies this
      ensures inputX == (if key == KeyA || key == KeyD then 0.0 else old(inputX))
      ensures inputZ == (if key == KeyW || key == KeyS then 0.0 else old(inputZ))
      ensures inputY == old(inputY) && onGround == old(onGround) && locked == old(locked)
      ensures posX == old(posX) && posY == old(posY) && posZ == old(posZ)
      ensures velX == old(velX) && velY == old(velY) && velZ == old(velZ)
      ensures old(InputInvariant()) ==> InputInvariant()
    {
      match key {
        case KeyW => inputZ := 0.0;
        case KeyA => inputX := 0.0;
        case KeyS => inputZ := 0.0;
        case KeyD => inputX := 0.0;
        case _ =>
      }
    }

    /**
     * While locked: the horizontal velocity takes the input, the camera
     * moves by it along its own right and forward directions, and the
     * height integrates the vertical velocity. Unlocked, nothing changes.
     * (rightX, rightZ) and (forwardX, forwardZ) are the camera's horizontal
     * right and forward directions.
     */
    method ApplyInputs(dt: real, rightX: real, rightZ: real, forwardX: real, forwardZ: real)
      modifies this
      ensures !old(locked) ==> velX == old(velX) && velZ == old(velZ) &&
                               posX == old(posX) && posY == old(posY) && posZ == old(posZ)
      ensures old(locked) ==> velX == old(inputX) && velZ == old(inputZ)
      ensures old(locked) ==> posY == old(posY) + old(velY) * dt
      ensures old(locked) ==> posX == old(posX) + rightX * (old(inputX) * dt) + forwardX * (old(inputZ) * dt)
      ensures old(locked) ==> posZ == old(posZ) + rightZ * (old(inputX) * dt) + forwardZ * (old(inputZ) * dt)
      ensures velY == old(velY) && onGround == old(onGround) && locked == old(locked)
      ensures inputX == old(inputX) && inputY == old(inputY) && inputZ == old(inputZ)
    {
      if locked {
        velX := inputX;
        velZ := inputZ;
        // controls.moveRight(velocity.x * dt)
        posX, posZ := posX + rightX * (velX * dt), posZ + rightZ * (velX * dt);
        // controls.moveForward(velocity.z * dt)
        posX, posZ := posX + forwardX * (velZ * dt), posZ + forwardZ * (velZ * dt);
        posY := posY + velY * dt;
      }
    }
  }
}
